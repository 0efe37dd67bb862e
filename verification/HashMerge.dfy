/** Copies and unions of hash tables, built into one block of new entries. */
module HashMerge {
  import opened Bits
  import opened HashKeys
  import opened HashChains
  import opened HashTables

  function Taken(block: Chain, j: nat): set<Entry>
    requires j <= |block|
  {
    set e | e in block[..j]
  }

  /** The first `j` entries of the block are in the chains, and hold the map. */
  ghost predicate Built(slots: array<Entry?>, chains: seq<Chain>, block: Chain, j: nat, h: Hasher, max: nat, done: map<Key, Ptr>)
    reads slots, block
  {
    && slots.Length == |chains| == max + 1 && j == |done| <= |block| && Distinct(block)
    && EntriesOf(chains) == Taken(block, j)
    && Apart(chains) && Filed(slots, chains) && Buckets(chains, h, max, done)
  }

  /** `new_vals`: as many new entries as are asked for. */
  method NewBlock(n: nat) returns (block: Chain)
    ensures |block| == n && Distinct(block) && forall e | e in block :: fresh(e)
  {
    block := [];
    while |block| < n
      invariant |block| <= n && Distinct(block) && forall e | e in block :: fresh(e)
    {
      var e := new Entry();
      block := block + [e];
    }
  }

  lemma BuiltNone(slots: array<Entry?>, chains: seq<Chain>, block: Chain, h: Hasher, max: nat)
    requires slots.Length == |chains| == max + 1 && Distinct(block)
    requires forall i | 0 <= i <= max :: slots[i] == null && chains[i] == []
    ensures Built(slots, chains, block, 0, h, max, map[])
  {
  }

  lemma NextOfBlock(chains: seq<Chain>, block: Chain, j: nat)
    requires Distinct(block) && j < |block| && EntriesOf(chains) == Taken(block, j)
    ensures block[j] !in EntriesOf(chains)
    ensures Taken(block, j + 1) == EntriesOf(chains) + {block[j]}
  {
    assert block[..j + 1] == block[..j] + [block[j]];
  }

  lemma OneMore(m: map<Key, Ptr>, k: Key, v: Ptr)
    requires k !in m
    ensures |m[k := v]| == |m| + 1
  {
    assert m[k := v].Keys == m.Keys + {k};
  }

  /** A new entry of the block, in front of its chain. */
  method AddFirst(slots: array<Entry?>, ghost chains: seq<Chain>, block: Chain, j: nat, ghost h: Hasher, ghost max: nat, ghost done: map<Key, Ptr>,
      i: nat, hash: Word, key: Key, val: Ptr) returns (ghost after: seq<Chain>)
    requires Built(slots, chains, block, j, h, max, done) && j < |block|
    requires key !in done && hash == HashOf(h, key) && i == And(hash, max)
    modifies slots, block[j]
    ensures Built(slots, after, block, j + 1, h, max, done[key := val])
  {
    hide Filed, Apart, Buckets, Distinct, And, HashOf, EntriesOf;
    NextOfBlock(chains, block, j);
    OneMore(done, key, val);
    var e := block[j];
    e.key, e.val, e.hash := key, val, hash;
    after := chains[i := [e] + chains[i]];
    BucketsMore(chains, i, [e] + chains[i], e, h, max, done);
    ApartPut(chains, i, [e] + chains[i], e);
    Push(slots, chains, i, e);
  }

  /** The table has nothing to do with what is being built. */
  ghost predicate Separate(t: HashTable, slots: array<Entry?>, block: Chain)
    reads t
  {
    slots != t.slots && forall e | e in block :: e !in EntriesOf(t.chains) && e !in t.recycled
  }

  /** What a walk over all chains of a table needs to know. */
  lemma AllOf(t: HashTable)
    requires t.Valid()
    ensures t.slots.Length == |t.chains| == t.max + 1 && Filed(t.slots, t.chains) && t.count == |t.m| <= t.max && IsMask(t.max)
    ensures Lists(Flat(t.chains), t.m) && Hashed(Flat(t.chains), t.hasher) && |Flat(t.chains)| == |t.m|
  {
    hide Owned, Buckets, Flat, Filed;
    FlatAll(t.chains, t.recycled, t.hasher, t.max, t.m);
  }

  /** A walk is at place `p` of chain `k`. */
  ghost predicate WalkAt(t: HashTable, k: nat, p: nat, iter: Entry?, seen: Chain)
    reads t
  {
    && k < |t.chains| && p <= |t.chains[k]|
    && iter == (if p < |t.chains[k]| then t.chains[k][p] else null)
    && Flat(t.chains) == seen + t.chains[k][p..] + Flat(t.chains[k + 1..])
  }

  lemma WalkBegins(t: HashTable, k: nat, seen: Chain)
    requires t.Valid() && k <= t.max && Flat(t.chains) == seen + Flat(t.chains[k..])
    ensures k < t.slots.Length && WalkAt(t, k, 0, t.slots[k], seen)
  {
    hide Owned, Buckets;
    ChainIs(t.slots, t.chains, k);
    assert t.chains[k..][0] == t.chains[k] && t.chains[k..][1..] == t.chains[k + 1..];
    assert t.chains[k][0..] == t.chains[k];
  }

  lemma WalkGoesOn(t: HashTable, k: nat, p: nat, iter: Entry, seen: Chain)
    requires t.Valid() && WalkAt(t, k, p, iter, seen)
    ensures WalkAt(t, k, p + 1, iter.next, seen + [iter]) && iter in EntriesOf(t.chains)
    ensures k < |t.chains| && p < |t.chains[k]| && iter == t.chains[k][p]
    ensures Flat(t.chains) == seen + [iter] + (t.chains[k][p + 1..] + Flat(t.chains[k + 1..]))
  {
    hide Owned, Buckets;
    ChainIs(t.slots, t.chains, k);
    NextIs(t.chains[k], p);
    assert t.chains[k][p..] == [iter] + t.chains[k][p + 1..];
  }

  lemma WalkEnds(t: HashTable, k: nat, p: nat, seen: Chain)
    requires WalkAt(t, k, p, null, seen)
    ensures k < |t.chains| && p == |t.chains[k]| && Flat(t.chains) == seen + Flat(t.chains[k + 1..])
  {
  }

  /** What a walk reads off its entry. */
  lemma WalkReads(t: HashTable, k: nat, p: nat, iter: Entry, seen: Chain, part: map<Key, Ptr>)
    requires t.Valid() && WalkAt(t, k, p, iter, seen) && Lists(seen, part)
    ensures iter.key !in part && iter.key in t.m && t.m[iter.key] == iter.val && iter.hash == HashOf(t.hasher, iter.key)
    ensures Lists(seen + [iter], part[iter.key := iter.val]) && |seen| < t.count
  {
    AllOf(t);
    hide Owned, Buckets, Lists, Hashed, WalkAt;
    WalkGoesOn(t, k, p, iter, seen);
    var all, rest := Flat(t.chains), t.chains[k][p + 1..] + Flat(t.chains[k + 1..]);
    ListsMore(seen, iter, rest, part, t.m);
    assert all[|seen|] == iter;
    HashIs(all, |seen|, t.hasher);
  }

  /** The entries of the table are none of the block. */
  lemma SeenAway(t: HashTable, k: nat, p: nat, iter: Entry?, seen: Chain, slots: array<Entry?>, block: Chain)
    requires WalkAt(t, k, p, iter, seen) && Separate(t, slots, block)
    ensures forall e | e in seen :: e !in block
    ensures forall j | 0 <= j < |block| :: block[j] in block && block[j] !in EntriesOf(t.chains) && block[j] !in seen
  {
    hide EntriesOf;
    forall e | e in seen ensures e !in block {
      assert e in Flat(t.chains);
      FlatHas(t.chains, e);
    }
  }

  lemma WalkDone(t: HashTable, seen: Chain, part: map<Key, Ptr>)
    requires t.Valid() && Flat(t.chains) == seen + Flat(t.chains[t.max + 1..]) && Lists(seen, part)
    ensures part == t.m && |seen| == t.count
  {
    AllOf(t);
    hide Owned, Buckets, Lists, Filed;
    assert t.chains[t.max + 1..] == [];
    assert seen == Flat(t.chains);
    ListsUnique(seen, t.m, part);
  }

  lemma WalkStarts(t: HashTable)
    requires t.Valid()
    ensures Flat(t.chains) == [] + Flat(t.chains[0..]) && Lists([], map[])
  {
    assert t.chains[0..] == t.chains;
  }

  /** The entries of one chain of the base, in the first loop of `scl_hash_merge`. */
  method AddBaseChain(base: HashTable, slots: array<Entry?>, block: Chain, max: nat, k: nat, j0: nat,
      ghost chains: seq<Chain>, ghost seen: Chain, ghost done: map<Key, Ptr>)
    returns (j: nat, ghost chains': seq<Chain>, ghost seen': Chain, ghost done': map<Key, Ptr>)
    requires base.Valid() && Separate(base, slots, block) && |block| >= base.count && k <= base.max
    requires j0 == |seen| && Lists(seen, done) && Flat(base.chains) == seen + Flat(base.chains[k..])
    requires Built(slots, chains, block, j0, base.hasher, max, done)
    modifies slots, set e | e in block
    ensures base.Valid() && j == |seen'| && Lists(seen', done') && Flat(base.chains) == seen' + Flat(base.chains[k + 1..])
    ensures Built(slots, chains', block, j, base.hasher, max, done')
  {
    hide Built, Flat, Lists, Distinct, HashTable.Valid, HashTable.Shaped, EntriesOf, And, HashOf, WalkAt;
    AllOf(base);
    j, chains', seen', done' := j0, chains, seen, done;
    WalkBegins(base, k, seen);
    var iter := base.slots[k];
    ghost var p := 0;
    while iter != null
      invariant base.Valid() && j == |seen'| && Lists(seen', done') && WalkAt(base, k, p, iter, seen')
      invariant Built(slots, chains', block, j, base.hasher, max, done')
      invariant p <= |base.chains[k]|
      decreases |base.chains[k]| - p
    {
      SeenAway(base, k, p, iter, seen', slots, block);
      base.AllAllocated();
      WalkReads(base, k, p, iter, seen', done');
      WalkGoesOn(base, k, p, iter, seen');
      var i := And(iter.hash, max);
      chains' := AddFirst(slots, chains', block, j, base.hasher, max, done', i, iter.hash, iter.key, iter.val);
      seen', done' := seen' + [iter], done'[iter.key := iter.val];
      j, p := j + 1, p + 1;
      iter := iter.next;
    }
    WalkEnds(base, k, p, seen');
  }

  /** The first loop of `scl_hash_merge`. */
  method AddBase(base: HashTable, slots: array<Entry?>, block: Chain, max: nat) returns (j: nat, ghost chains: seq<Chain>)
    requires base.Valid() && Separate(base, slots, block) && Distinct(block) && |block| >= base.count
    requires slots.Length == max + 1 && forall i | 0 <= i <= max :: slots[i] == null
    modifies slots, set e | e in block
    ensures base.Valid() && j == base.count && Built(slots, chains, block, j, base.hasher, max, base.m)
  {
    hide Built, Flat, Lists, Distinct, HashTable.Valid, HashTable.Shaped, EntriesOf;
    j, chains := 0, seq(max + 1, _ => []);
    BuiltNone(slots, chains, block, base.hasher, max);
    AllOf(base);
    WalkStarts(base);
    ghost var seen: Chain, done: map<Key, Ptr> := [], map[];
    for k := 0 to base.max + 1
      invariant base.Valid() && j == |seen| && Lists(seen, done) && Flat(base.chains) == seen + Flat(base.chains[k..])
      invariant Built(slots, chains, block, j, base.hasher, max, done)
    {
      j, chains, seen, done := AddBaseChain(base, slots, block, max, k, j, chains, seen, done);
    }
    WalkDone(base, seen, done);
  }

  /** What a merge makes of two values for a key: the overlay's, or what the caller's function returns. */
  datatype Merger = Override | Call(f: (Key, Ptr, Ptr) -> Ptr)

  function Combined(g: Merger, k: Key, over: Ptr, under: Ptr): Ptr {
    match g
    case Override => over
    case Call(f) => f(k, over, under)
  }

  function Union(under: map<Key, Ptr>, over: map<Key, Ptr>, g: Merger): map<Key, Ptr> {
    map k | k in under.Keys + over.Keys ::
      if k !in over then under[k] else if k in under then Combined(g, k, over[k], under[k]) else over[k]
  }

  lemma UnionNone(under: map<Key, Ptr>, g: Merger)
    ensures Union(under, map[], g) == under
  {
  }

  lemma UnionStep(under: map<Key, Ptr>, over: map<Key, Ptr>, g: Merger, k: Key, v: Ptr)
    requires k !in over
    ensures var u := Union(under, over, g);
      Union(under, over[k := v], g) == u[k := if k in u then Combined(g, k, v, u[k]) else v]
  {
  }

  lemma UnionSize(under: map<Key, Ptr>, over: map<Key, Ptr>, g: Merger)
    ensures |Union(under, over, g)| <= |under| + |over|
  {
    assert Union(under, over, g).Keys == under.Keys + over.Keys;
  }

  /** One entry of the overlay, in the second loop of `scl_hash_merge`. */
  method MergeOne(slots: array<Entry?>, ghost chains: seq<Chain>, block: Chain, j: nat, h: Hasher, max: nat, ghost done: map<Key, Ptr>,
      key: Key, val: Ptr, g: Merger) returns (j': nat, ghost after: seq<Chain>)
    requires Built(slots, chains, block, j, h, max, done) && (key in done || j < |block|)
    modifies slots, set e | e in block
    ensures Built(slots, after, block, j', h, max, done[key := if key in done then Combined(g, key, val, done[key]) else val])
  {
    hide Filed, Apart, Buckets, Distinct, And, HashOf, EntriesOf;
    assert Named(key, |key|) == key;
    var hash, len := HashKey(h, key, |key|);
    var i := And(hash, max);
    ghost var p;
    var ent;
    ent, p := Search(slots, chains, h, max, done, i, key);
    if ent != null {
      InAll(chains, i, p);
      assert ent in Taken(block, j);
      var merged := Combined(g, key, val, ent.val);
      assert done[key := merged].Keys == done.Keys;
      Rewrite(chains, h, max, done, i, p, ent, merged);
      j', after := j, chains;
    } else {
      after := AddFirst(slots, chains, block, j, h, max, done, i, hash, key, val);
      j' := j + 1;
    }
  }

  /** The search for a key in the chain of its slot; it does not look at the hash values. */
  method Search(slots: array<Entry?>, ghost chains: seq<Chain>, ghost h: Hasher, ghost max: nat, ghost done: map<Key, Ptr>, i: nat, key: Key)
    returns (ent: Entry?, ghost p: nat)
    requires Filed(slots, chains) && Buckets(chains, h, max, done) && i == SlotOf(h, max, key) && i < slots.Length
    ensures ent != null ==> p < |chains[i]| && ent == chains[i][p] && ent.key == key && key in done && done[key] == ent.val
    ensures ent == null ==> key !in done
  {
    ChainIs(slots, chains, i);
    BucketOf(chains, i, h, max, done);
    hide Filed, Buckets, Bucket, And, HashOf, Linked;
    ghost var c := chains[i];
    ent, p := slots[i], 0;
    while ent != null
      invariant p <= |c| && ent == if p < |c| then c[p] else null
      invariant forall l | 0 <= l < p :: c[l].key != key
      decreases |c| - p
    {
      NextIs(c, p);
      EntryHolds(c, p, h, max, i, done);
      if |ent.key| == |key| && ent.key == key {
        break;
      }
      ent, p := ent.next, p + 1;
    }
    if ent == null {
      NotThere(c, h, max, i, done, key);
    }
  }

  /** The entries of one chain of the overlay. */
  method AddOverlayChain(overlay: HashTable, slots: array<Entry?>, block: Chain, h: Hasher, max: nat, k: nat, j0: nat, ghost under: map<Key, Ptr>, g: Merger,
      ghost chains: seq<Chain>, ghost seen: Chain, ghost part: map<Key, Ptr>)
    returns (j: nat, ghost chains': seq<Chain>, ghost seen': Chain, ghost part': map<Key, Ptr>)
    requires overlay.Valid() && Separate(overlay, slots, block) && |block| >= |under| + overlay.count && k <= overlay.max
    requires Lists(seen, part) && Flat(overlay.chains) == seen + Flat(overlay.chains[k..])
    requires Built(slots, chains, block, j0, h, max, Union(under, part, g))
    modifies slots, set e | e in block
    ensures overlay.Valid() && Lists(seen', part') && Flat(overlay.chains) == seen' + Flat(overlay.chains[k + 1..])
    ensures Built(slots, chains', block, j, h, max, Union(under, part', g))
  {
    hide Built, Flat, Lists, Distinct, HashTable.Valid, HashTable.Shaped, EntriesOf, And, HashOf, WalkAt, Union;
    AllOf(overlay);
    j, chains', seen', part' := j0, chains, seen, part;
    WalkBegins(overlay, k, seen);
    var iter := overlay.slots[k];
    ghost var p := 0;
    while iter != null
      invariant overlay.Valid() && Lists(seen', part') && WalkAt(overlay, k, p, iter, seen')
      invariant Built(slots, chains', block, j, h, max, Union(under, part', g))
      invariant p <= |overlay.chains[k]|
      decreases |overlay.chains[k]| - p
    {
      SeenAway(overlay, k, p, iter, seen', slots, block);
      overlay.AllAllocated();
      WalkReads(overlay, k, p, iter, seen', part');
      WalkGoesOn(overlay, k, p, iter, seen');
      UnionStep(under, part', g, iter.key, iter.val);
      Room(slots, chains', block, j, h, max, seen', under, part', g);
      j, chains' := MergeOne(slots, chains', block, j, h, max, Union(under, part', g), iter.key, iter.val, g);
      seen', part' := seen' + [iter], part'[iter.key := iter.val];
      p := p + 1;
      iter := iter.next;
    }
    WalkEnds(overlay, k, p, seen');
  }

  /** The block has an entry left for every entry of the overlay that is still to come. */
  lemma Room(slots: array<Entry?>, chains: seq<Chain>, block: Chain, j: nat, h: Hasher, max: nat, seen: Chain, under: map<Key, Ptr>, part: map<Key, Ptr>, g: Merger)
    requires Built(slots, chains, block, j, h, max, Union(under, part, g)) && Lists(seen, part)
    ensures j <= |under| + |seen|
  {
    UnionSize(under, part, g);
    ListsSize(seen, part);
  }

  /** The second loop of `scl_hash_merge`. */
  method AddOverlay(overlay: HashTable, slots: array<Entry?>, block: Chain, h: Hasher, max: nat, j0: nat, ghost under: map<Key, Ptr>, g: Merger, ghost chains: seq<Chain>)
    returns (j: nat, ghost chains': seq<Chain>)
    requires overlay.Valid() && Separate(overlay, slots, block) && |block| >= |under| + overlay.count
    requires Built(slots, chains, block, j0, h, max, under)
    modifies slots, set e | e in block
    ensures Built(slots, chains', block, j, h, max, Union(under, overlay.m, g))
  {
    hide Built, Flat, Lists, Distinct, HashTable.Valid, HashTable.Shaped, EntriesOf, Union;
    AllOf(overlay);
    WalkStarts(overlay);
    UnionNone(under, g);
    j, chains' := j0, chains;
    ghost var seen: Chain, part: map<Key, Ptr> := [], map[];
    for k := 0 to overlay.max + 1
      invariant overlay.Valid() && Lists(seen, part) && Flat(overlay.chains) == seen + Flat(overlay.chains[k..])
      invariant Built(slots, chains', block, j, h, max, Union(under, part, g))
    {
      j, chains', seen, part := AddOverlayChain(overlay, slots, block, h, max, k, j, under, g, chains', seen, part);
    }
    WalkDone(overlay, seen, part);
  }

  /** The size that a merged table has: enough for all keys. */
  lemma MergedMax(a: nat, b: nat, under: map<Key, Ptr>, over: map<Key, Ptr>, g: Merger) returns (max: nat)
    requires IsMask(a) && IsMask(b) && |over| <= a && |under| <= b
    ensures max == (var larger := if a > b then a else b; if |under| + |over| > larger then larger * 2 + 1 else larger)
    ensures IsMask(max) && |Union(under, over, g)| <= max
  {
    var larger := if a > b then a else b;
    MaskDoubles(larger);
    UnionSize(under, over, g);
    max := if |under| + |over| > larger then larger * 2 + 1 else larger;
  }

  lemma BuiltParts(slots: array<Entry?>, chains: seq<Chain>, block: Chain, j: nat, h: Hasher, max: nat, done: map<Key, Ptr>)
    requires Built(slots, chains, block, j, h, max, done)
    ensures slots.Length == max + 1 == |chains| && Apart(chains) && Filed(slots, chains) && Buckets(chains, h, max, done) && j == |done|
    ensures forall e | e in EntriesOf(chains) :: e in block
  {
  }

  /** `scl_hash_merge`, and `scl_hash_overlay` when the values are not to be merged. */
  method Merge(overlay: HashTable, base: HashTable, g: Merger) returns (res: HashTable)
    requires overlay.Valid() && base.Valid()
    ensures res.Valid() && res.m == Union(base.m, overlay.m, g) && res.hasher == base.hasher
    ensures fresh(res) && fresh(res.slots) && fresh(res.inner) && forall e | e in res.Made() :: fresh(e)
    ensures var larger := if overlay.max > base.max then overlay.max else base.max;
      res.max == if |base.m| + |overlay.m| > larger then larger * 2 + 1 else larger
    ensures base.Valid() && overlay.Valid()
  {
    hide HashTable.Valid, HashTable.Shaped, Union, EntriesOf, Built, Filed, Apart, Buckets, Distinct, IsMask, Separate;
    AllOf(base);
    AllOf(overlay);
    base.AllAllocated();
    overlay.AllAllocated();
    ghost var right := MergedMax(overlay.max, base.max, base.m, overlay.m, g);
    var max := if overlay.max > base.max then overlay.max else base.max;
    if base.count + overlay.count > max {
      max := max * 2 + 1;
    }
    var slots, block := NewSpace(overlay, base, base.count + overlay.count, max);
    var j;
    ghost var chains;
    j, chains := BuildUnion(overlay, base, slots, block, max, g);
    res := new HashTable.Of(base.hasher, slots, max, j, chains, Union(base.m, overlay.m, g));
  }

  /** Empty slots and a block of new entries. */
  method NewSpace(t: HashTable, u: HashTable, n: nat, max: nat) returns (slots: array<Entry?>, block: Chain)
    requires t.Valid() && u.Valid()
    ensures t.Valid() && u.Valid() && fresh(slots) && forall e | e in block :: fresh(e)
    ensures slots.Length == max + 1 && forall i | 0 <= i <= max :: slots[i] == null
    ensures |block| == n && Distinct(block) && Separate(t, slots, block) && Separate(u, slots, block)
  {
    hide HashTable.Valid, HashTable.Shaped, EntriesOf, Distinct;
    t.AllAllocated();
    u.AllAllocated();
    slots := new Entry?[max + 1](_ => null);
    block := NewBlock(n);
  }

  /** The loops of `scl_hash_merge`. */
  method BuildUnion(overlay: HashTable, base: HashTable, slots: array<Entry?>, block: Chain, max: nat, g: Merger) returns (j: nat, ghost chains: seq<Chain>)
    requires overlay.Valid() && base.Valid() && Distinct(block) && |block| == base.count + overlay.count
    requires Separate(overlay, slots, block) && Separate(base, slots, block)
    requires slots.Length == max + 1 && forall i | 0 <= i <= max :: slots[i] == null
    modifies slots, set e | e in block
    ensures overlay.Valid() && base.Valid()
    ensures slots.Length == max + 1 == |chains| && Apart(chains) && Filed(slots, chains)
    ensures Buckets(chains, base.hasher, max, Union(base.m, overlay.m, g)) && j == |Union(base.m, overlay.m, g)|
    ensures forall e | e in EntriesOf(chains) :: e in block
  {
    hide HashTable.Valid, HashTable.Shaped, Union, EntriesOf, Built, Filed, Apart, Buckets, Distinct;
    AllOf(base);
    base.AllAllocated();
    overlay.AllAllocated();
    j, chains := AddBase(base, slots, block, max);
    j, chains := AddOverlay(overlay, slots, block, base.hasher, max, j, base.m, g, chains);
    BuiltParts(slots, chains, block, j, base.hasher, max, Union(base.m, overlay.m, g));
  }

  predicate OneChain(chains: seq<Chain>, after: seq<Chain>, k: nat) {
    |chains| == |after| && k < |chains| && forall l | 0 <= l < |chains| && l != k :: after[l] == chains[l]
  }

  lemma OneChainUpdate(chains: seq<Chain>, k: nat, d: Chain)
    requires k < |chains|
    ensures OneChain(chains, chains[k := d], k)
  {
  }

  lemma OneChainLength(chains: seq<Chain>, after: seq<Chain>, k: nat)
    ensures OneChain(chains, after, k) ==> |chains| == |after| && k < |chains|
  {
  }

  lemma OneChainSteps(chains: seq<Chain>, between: seq<Chain>, after: seq<Chain>, k: nat)
    requires OneChain(chains, between, k) && OneChain(between, after, k)
    ensures OneChain(chains, after, k)
  {
  }

  /** A new entry of the block, behind the last one of its chain. */
  method AddLast(slots: array<Entry?>, ghost chains: seq<Chain>, block: Chain, j: nat, ghost h: Hasher, ghost max: nat, ghost done: map<Key, Ptr>,
      i: nat, prev: Entry?, hash: Word, key: Key, val: Ptr) returns (ghost after: seq<Chain>)
    requires Built(slots, chains, block, j, h, max, done) && j < |block|
    requires key !in done && hash == HashOf(h, key) && i == And(hash, max) && prev == Before(chains[i], |chains[i]|)
    modifies slots, set e | e in block
    ensures Built(slots, after, block, j + 1, h, max, done[key := val])
    ensures OneChain(chains, after, i) && Before(after[i], |after[i]|) == block[j]
  {
    LastIn(chains, block, j, i);
    hide Built, Before, And, HashOf;
    FillNext(slots, chains, block, j, h, max, done, hash, key, val);
    after := LinkLast(slots, chains, block, j, h, max, done, i, prev);
  }

  method FillNext(slots: array<Entry?>, ghost chains: seq<Chain>, block: Chain, j: nat, ghost h: Hasher, ghost max: nat, ghost done: map<Key, Ptr>,
      hash: Word, key: Key, val: Ptr)
    requires Built(slots, chains, block, j, h, max, done) && j < |block|
    modifies block[j]
    ensures Built(slots, chains, block, j, h, max, done)
    ensures var e := block[j]; e.hash == hash && e.key == key && e.val == val && e.next == null
  {
    hide Filed, Apart, Buckets, Distinct, EntriesOf;
    NextOfBlock(chains, block, j);
    var e := block[j];
    e.hash, e.key, e.val, e.next := hash, key, val, null;
  }

  method LinkLast(slots: array<Entry?>, ghost chains: seq<Chain>, block: Chain, j: nat, ghost h: Hasher, ghost max: nat, ghost done: map<Key, Ptr>,
      i: nat, prev: Entry?) returns (ghost after: seq<Chain>)
    requires Built(slots, chains, block, j, h, max, done) && j < |block| && i < |chains| && prev == Before(chains[i], |chains[i]|)
    requires var e := block[j]; e.key !in done && e.hash == HashOf(h, e.key) && i == And(e.hash, max) && e.next == null
    modifies slots, (if prev == null then {} else {prev})`next
    ensures prev == null || prev in block
    ensures Built(slots, after, block, j + 1, h, max, done[block[j].key := block[j].val])
    ensures OneChain(chains, after, i) && Before(after[i], |after[i]|) == block[j]
  {
    LastIs(chains[i], block[j]);
    OneChainUpdate(chains, i, chains[i] + [block[j]]);
    hide Filed, Apart, Buckets, Distinct, And, HashOf, EntriesOf, Before, OneChain, Taken, Linked, First;
    NextOfBlock(chains, block, j);
    LastIn(chains, block, j, i);
    var e := block[j];
    OneMore(done, e.key, e.val);
    after := chains[i := chains[i] + [e]];
    BucketsMore(chains, i, chains[i] + [e], e, h, max, done);
    ApartPut(chains, i, chains[i] + [e], e);
    Append(slots, chains, i, prev, e);
  }

  lemma NoneBefore()
    ensures Before([], 0) == null
  {
  }

  lemma LastIs(c: Chain, e: Entry)
    ensures |c + [e]| == |c| + 1 && Before(c + [e], |c + [e]|) == e
  {
  }

  lemma LastIn(chains: seq<Chain>, block: Chain, j: nat, i: nat)
    requires i < |chains| && j <= |block| && EntriesOf(chains) == Taken(block, j)
    ensures Before(chains[i], |chains[i]|) == null || Before(chains[i], |chains[i]|) in block
  {
    if |chains[i]| > 0 {
      InAll(chains, i, |chains[i]| - 1);
    }
  }

  lemma SlotOfEntry(t: HashTable, k: nat, p: nat)
    requires t.Valid() && k < |t.chains| && p < |t.chains[k]|
    ensures And(t.chains[k][p].hash, t.max) == k
  {
    assert Bucket(t.chains[k], t.hasher, t.max, k, t.m) && Good(t.chains[k][p], t.hasher, t.max, k, t.m);
  }

  /** A copy of one entry. */
  method CopyEntry(orig: HashTable, slots: array<Entry?>, block: Chain, k: nat, ghost p: nat, orig_entry: Entry, prev: Entry?, j: nat,
      ghost chains: seq<Chain>, ghost seen: Chain, ghost done: map<Key, Ptr>)
    returns (ghost chains': seq<Chain>, ghost done': map<Key, Ptr>)
    requires orig.Valid() && Separate(orig, slots, block) && |block| >= orig.count
    requires j == |seen| && Lists(seen, done) && WalkAt(orig, k, p, orig_entry, seen)
    requires Built(slots, chains, block, j, orig.hasher, orig.max, done) && k < |chains| && prev == Before(chains[k], |chains[k]|)
    modifies slots, set e | e in block
    ensures orig.Valid() && Lists(seen + [orig_entry], done') && WalkAt(orig, k, p + 1, orig_entry.next, seen + [orig_entry])
    ensures j < |block| && Built(slots, chains', block, j + 1, orig.hasher, orig.max, done')
    ensures OneChain(chains, chains', k) && block[j] == Before(chains'[k], |chains'[k]|)
  {
    CopyReady(orig, slots, block, k, p, orig_entry, j, chains, seen, done);
    hide OneChain, Taken, Built, Flat, Lists, Distinct, HashTable.Valid, HashTable.Shaped, EntriesOf, And, HashOf, WalkAt, Before;
    orig.AllAllocated();
    done' := done[orig_entry.key := orig_entry.val];
    chains' := AddLast(slots, chains, block, j, orig.hasher, orig.max, done, k, prev, orig_entry.hash, orig_entry.key, orig_entry.val);
    WalkReads(orig, k, p, orig_entry, seen, done);
    WalkGoesOn(orig, k, p, orig_entry, seen);
  }

  lemma CopyReady(orig: HashTable, slots: array<Entry?>, block: Chain, k: nat, p: nat, orig_entry: Entry, j: nat,
      chains: seq<Chain>, seen: Chain, done: map<Key, Ptr>)
    requires orig.Valid() && Separate(orig, slots, block) && |block| >= orig.count
    requires j == |seen| && Lists(seen, done) && WalkAt(orig, k, p, orig_entry, seen)
    requires Built(slots, chains, block, j, orig.hasher, orig.max, done) && k < |chains|
    ensures forall e | e in seen :: e !in block
    ensures orig_entry !in block
    ensures j < |block| && orig_entry.key !in done && orig_entry.hash == HashOf(orig.hasher, orig_entry.key) && And(orig_entry.hash, orig.max) == k
  {
    BuiltTaken(slots, chains, block, j, orig.hasher, orig.max, done);
    hide Built, Flat, Lists, Distinct, HashTable.Valid, HashTable.Shaped, EntriesOf, And, HashOf, WalkAt, Before;
    SeenAway(orig, k, p, orig_entry, seen, slots, block);
    WalkReads(orig, k, p, orig_entry, seen, done);
    WalkGoesOn(orig, k, p, orig_entry, seen);
    SlotOfEntry(orig, k, p);
  }

  lemma BuiltTaken(slots: array<Entry?>, chains: seq<Chain>, block: Chain, j: nat, h: Hasher, max: nat, done: map<Key, Ptr>)
    requires Built(slots, chains, block, j, h, max, done)
    ensures j <= |block| && EntriesOf(chains) == Taken(block, j)
  {
  }

  /** One chain, in the loop of `scl_hash_copy`. */
  method CopyChain(orig: HashTable, slots: array<Entry?>, block: Chain, k: nat, j0: nat,
      ghost chains: seq<Chain>, ghost seen: Chain, ghost done: map<Key, Ptr>)
    returns (j: nat, ghost chains': seq<Chain>, ghost seen': Chain, ghost done': map<Key, Ptr>)
    requires orig.Valid() && Separate(orig, slots, block) && |block| >= orig.count && k <= orig.max
    requires j0 == |seen| && Lists(seen, done) && Flat(orig.chains) == seen + Flat(orig.chains[k..])
    requires Built(slots, chains, block, j0, orig.hasher, orig.max, done) && |chains| == orig.max + 1 && chains[k] == []
    modifies slots, set e | e in block
    ensures orig.Valid() && j == |seen'| && Lists(seen', done') && Flat(orig.chains) == seen' + Flat(orig.chains[k + 1..])
    ensures Built(slots, chains', block, j, orig.hasher, orig.max, done') && OneChain(chains, chains', k)
  {
    hide Built, Flat, Lists, Distinct, HashTable.Valid, HashTable.Shaped, EntriesOf, And, HashOf, WalkAt, Before;
    AllOf(orig);
    j, chains', seen', done' := j0, chains, seen, done;
    NoneBefore();
    WalkBegins(orig, k, seen);
    var orig_entry := orig.slots[k];
    var new_entry: Entry? := null;
    ghost var p := 0;
    while orig_entry != null
      invariant orig.Valid() && j == |seen'| && Lists(seen', done') && WalkAt(orig, k, p, orig_entry, seen')
      invariant Built(slots, chains', block, j, orig.hasher, orig.max, done')
      invariant OneChain(chains, chains', k) && k < |chains'|
      invariant new_entry == Before(chains'[k], |chains'[k]|)
      invariant p <= |orig.chains[k]|
      decreases |orig.chains[k]| - p
    {
      WalkGoesOn(orig, k, p, orig_entry, seen');
      ghost var before := chains';
      OneChainLength(chains, chains', k);
      chains', done' := CopyEntry(orig, slots, block, k, p, orig_entry, new_entry, j, chains', seen', done');
      OneChainSteps(chains, before, chains', k);
      OneChainLength(chains, chains', k);
      new_entry := block[j];
      seen' := seen' + [orig_entry];
      j, p := j + 1, p + 1;
      orig_entry := orig_entry.next;
    }
    WalkEnds(orig, k, p, seen');
  }

  /** `scl_hash_copy`. */
  method Copy(orig: HashTable) returns (ht: HashTable)
    requires orig.Valid()
    ensures ht.Valid() && ht.m == orig.m && ht.hasher == orig.hasher && ht.max == orig.max
    ensures fresh(ht) && fresh(ht.slots) && fresh(ht.inner) && forall e | e in ht.Made() :: fresh(e)
    ensures orig.Valid()
  {
    hide HashTable.Valid, HashTable.Shaped, EntriesOf, Built, Filed, Apart, Buckets, Distinct, IsMask, Flat, Lists;
    AllOf(orig);
    orig.AllAllocated();
    var slots := new Entry?[orig.max + 1](_ => null);
    var block := NewBlock(orig.count);
    var j := 0;
    ghost var chains := seq(orig.max + 1, _ => []);
    BuiltNone(slots, chains, block, orig.hasher, orig.max);
    WalkStarts(orig);
    ghost var seen: Chain, done: map<Key, Ptr> := [], map[];
    for i := 0 to orig.max + 1
      invariant orig.Valid() && j == |seen| && Lists(seen, done) && Flat(orig.chains) == seen + Flat(orig.chains[i..])
      invariant Built(slots, chains, block, j, orig.hasher, orig.max, done) && |chains| == orig.max + 1
      invariant forall l | i <= l < |chains| :: chains[l] == []
    {
      j, chains, seen, done := CopyChain(orig, slots, block, i, j, chains, seen, done);
      BuiltParts(slots, chains, block, j, orig.hasher, orig.max, done);
    }
    WalkDone(orig, seen, done);
    BuiltParts(slots, chains, block, j, orig.hasher, orig.max, done);
    ht := new HashTable.Of(orig.hasher, slots, orig.max, j, chains, orig.m);
  }
}
