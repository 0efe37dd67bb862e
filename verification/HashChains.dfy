/** Chains of hash entries: how they are linked, and what they hold. */
module HashChains {
  import opened Bits
  import opened HashKeys

  /** A pointer to a value that the table does not look behind. */
  datatype Ptr = Null | To(id: nat)

  class Entry {
    var next: Entry?
    var hash: Word
    var key: Key
    var val: Ptr

    constructor ()
      ensures next == null
    {
      next, hash, key, val := null, 0, [], Null;
    }
  }

  type Chain = seq<Entry>

  function First(c: Chain): Entry? { if |c| > 0 then c[0] else null }

  function After(c: Chain, j: nat): Entry? { if j + 1 < |c| then c[j + 1] else null }

  ghost predicate Linked(c: Chain)
    reads c`next
  {
    forall j | 0 <= j < |c| :: c[j].next == After(c, j)
  }

  predicate Distinct(c: Chain) { forall j, k | 0 <= j < k < |c| :: c[j] != c[k] }

  predicate Disjoint(c: Chain, d: Chain) { forall e | e in c :: e !in d }

  /** No entry is in two places. */
  predicate Apart(chains: seq<Chain>) {
    && (forall i | 0 <= i < |chains| :: Distinct(chains[i]))
    && (forall i, k | 0 <= i < k < |chains| :: Disjoint(chains[i], chains[k]))
  }

  function EntriesOf(chains: seq<Chain>): set<Entry> { set i, j | 0 <= i < |chains| && 0 <= j < |chains[i]| :: chains[i][j] }

  /** The entries of the chains, in the order of iteration. */
  function Flat(chains: seq<Chain>): Chain { if |chains| == 0 then [] else chains[0] + Flat(chains[1..]) }

  ghost predicate HasKey(c: Chain, k: Key)
    reads c`key
  {
    exists j | 0 <= j < |c| :: c[j].key == k
  }

  ghost predicate DistinctKeys(c: Chain)
    reads c`key
  {
    forall j, k | 0 <= j < k < |c| :: c[j].key != c[k].key
  }

  function SlotOf(h: Hasher, max: nat, k: Key): nat { And(HashOf(h, k), max) }

  /** The entry is filed under its key's hash, in slot `i`, and its value is the map's. */
  ghost predicate Good(e: Entry, h: Hasher, max: nat, i: nat, m: map<Key, Ptr>)
    reads e`hash, e`key, e`val
  {
    e.hash == HashOf(h, e.key) && And(e.hash, max) == i && e.key in m && m[e.key] == e.val
  }

  /** The chain of slot `i` holds the keys of the map that belong there. */
  ghost predicate Bucket(c: Chain, h: Hasher, max: nat, i: nat, m: map<Key, Ptr>)
    reads c`hash, c`key, c`val
  {
    && (forall j | 0 <= j < |c| :: Good(c[j], h, max, i, m))
    && DistinctKeys(c)
    && (forall k {:trigger HasKey(c, k)} | k in m && SlotOf(h, max, k) == i :: HasKey(c, k))
  }

  /** Every slot has the keys that belong there. */
  ghost predicate Buckets(chains: seq<Chain>, h: Hasher, max: nat, m: map<Key, Ptr>)
    reads EntriesOf(chains)`hash, EntriesOf(chains)`key, EntriesOf(chains)`val
  {
    |chains| == max + 1 && forall i | 0 <= i < |chains| :: Bucket(chains[i], h, max, i, m)
  }

  /** The entries are the map, each key once. */
  ghost predicate Lists(c: Chain, m: map<Key, Ptr>)
    reads c`key, c`val
  {
    && (forall j | 0 <= j < |c| :: c[j].key in m && m[c[j].key] == c[j].val)
    && DistinctKeys(c)
    && (forall k {:trigger HasKey(c, k)} | k in m :: HasKey(c, k))
  }

  lemma {:induction false} FlatHas(chains: seq<Chain>, e: Entry)
    ensures e in Flat(chains) <==> e in EntriesOf(chains)
  {
    if |chains| > 0 {
      FlatHas(chains[1..], e);
      assert forall i | 0 < i < |chains| :: chains[i] == chains[1..][i - 1];
      assert forall i | 0 <= i < |chains| - 1 :: chains[1..][i] == chains[i + 1];
    }
  }

  lemma {:induction false} FlatDistinct(chains: seq<Chain>)
    requires Apart(chains)
    ensures Distinct(Flat(chains))
  {
    if |chains| > 0 {
      var rest := chains[1..];
      assert forall i | 0 <= i < |rest| :: rest[i] == chains[i + 1];
      FlatDistinct(rest);
      forall e | e in chains[0] ensures e !in Flat(rest) {
        FlatHas(rest, e);
      }
      assert Distinct(chains[0]);
      DistinctJoin(chains[0], Flat(rest));
    }
  }

  lemma DistinctJoin(c: Chain, d: Chain)
    requires Distinct(c) && Distinct(d) && Disjoint(c, d)
    ensures Distinct(c + d)
  {
    forall j | 0 <= j < |c| ensures (c + d)[j] in c {}
    forall j | 0 <= j < |d| ensures d[j] in d {}
    assert forall j | |c| <= j < |c + d| :: (c + d)[j] == d[j - |c|];
  }

  /** The entries of the slots from `n` on hold the keys that belong there. */
  ghost predicate ListsFrom(c: Chain, h: Hasher, max: nat, m: map<Key, Ptr>, n: nat)
    reads c`key, c`val
  {
    && (forall j | 0 <= j < |c| :: c[j].key in m && m[c[j].key] == c[j].val && SlotOf(h, max, c[j].key) >= n)
    && DistinctKeys(c)
    && (forall k {:trigger HasKey(c, k)} | k in m && SlotOf(h, max, k) >= n :: HasKey(c, k))
  }

  lemma HasKeyJoin(c: Chain, d: Chain, k: Key)
    ensures HasKey(c + d, k) <==> HasKey(c, k) || HasKey(d, k)
  {
    if HasKey(c, k) {
      var j :| 0 <= j < |c| && c[j].key == k;
      assert (c + d)[j].key == k;
    }
    if HasKey(d, k) {
      var j :| 0 <= j < |d| && d[j].key == k;
      assert (c + d)[|c| + j].key == k;
    }
  }

  lemma ListsJoin(c: Chain, d: Chain, h: Hasher, max: nat, m: map<Key, Ptr>, n: nat)
    requires Bucket(c, h, max, n, m) && ListsFrom(d, h, max, m, n + 1)
    ensures ListsFrom(c + d, h, max, m, n)
  {
    assert forall j | 0 <= j < |c| :: Good(c[j], h, max, n, m);
    forall k | k in m && SlotOf(h, max, k) >= n ensures HasKey(c + d, k) {
      HasKeyJoin(c, d, k);
    }
  }

  lemma {:induction false} FlatFrom(chains: seq<Chain>, h: Hasher, max: nat, m: map<Key, Ptr>, n: nat)
    requires Buckets(chains, h, max, m) && n <= |chains|
    ensures ListsFrom(Flat(chains[n..]), h, max, m, n)
    decreases |chains| - n
  {
    if n < |chains| {
      FlatFrom(chains, h, max, m, n + 1);
      ListsJoin(chains[n], Flat(chains[n + 1..]), h, max, m, n);
      assert chains[n..][0] == chains[n] && chains[n..][1..] == chains[n + 1..];
    }
  }

  lemma FlatLists(chains: seq<Chain>, h: Hasher, max: nat, m: map<Key, Ptr>)
    requires Buckets(chains, h, max, m)
    ensures Lists(Flat(chains), m) && |Flat(chains)| == |m|
  {
    FlatFrom(chains, h, max, m, 0);
    assert chains[0..] == chains;
    ListsSize(Flat(chains), m);
  }

  lemma {:induction false} ListsSize(c: Chain, m: map<Key, Ptr>)
    requires Lists(c, m)
    ensures |c| == |m|
  {
    if |c| == 0 {
      assert forall k | k in m :: HasKey(c, k);
      assert m == map[];
    } else {
      var last := |c| - 1;
      var less, k := c[..last], c[last].key;
      ListsLess(c, m);
      ListsSize(less, m - {k});
      assert m.Keys == (m - {k}).Keys + {k};
    }
  }

  lemma ListsLess(c: Chain, m: map<Key, Ptr>)
    requires Lists(c, m) && |c| > 0
    ensures Lists(c[..|c| - 1], m - {c[|c| - 1].key})
  {
    var last := |c| - 1;
    var less, k := c[..last], c[last].key;
    assert c == less + [c[last]];
    forall k' | k' in m - {k} ensures HasKey(less, k') {
      HasKeyJoin(less, [c[last]], k');
    }
  }

  /** What a list holds is determined. */
  lemma ListsUnique(c: Chain, m: map<Key, Ptr>, m': map<Key, Ptr>)
    requires Lists(c, m) && Lists(c, m')
    ensures m == m'
  {
    forall k ensures k in m <==> k in m' {
      assert k in m || k in m' ==> HasKey(c, k);
    }
    forall k | k in m ensures m[k] == m'[k] {
      assert HasKey(c, k);
    }
  }

  /** Each slot points to its chain. */
  ghost predicate Filed(slots: array<Entry?>, chains: seq<Chain>)
    reads slots, EntriesOf(chains)`next
  {
    slots.Length == |chains| && forall i | 0 <= i < |chains| :: slots[i] == First(chains[i]) && Linked(chains[i])
  }

  /** The entry before place `j` of a chain; before the first one there is only the slot. */
  function Before(c: Chain, j: nat): Entry?
    requires j <= |c|
  {
    if j == 0 then null else c[j - 1]
  }

  function Without(c: Chain, j: nat): (d: Chain)
    requires j < |c|
    ensures |d| == |c| - 1
  {
    c[..j] + c[j + 1..]
  }

  lemma WithoutNext(c: Chain, j: nat, k: nat)
    requires j < |c| && k + 1 < |c|
    ensures var d := Without(c, j);
      && (k < j ==> d[k] == c[k])
      && (k + 1 < j ==> After(d, k) == After(c, k))
      && (k + 1 == j ==> After(d, k) == After(c, j))
      && (k >= j ==> d[k] == c[k + 1] && After(d, k) == After(c, k + 1))
  {
  }

  /** Writes to the link that leads to a place of a chain: the slot or the entry before. */
  method SetLink(slots: array<Entry?>, i: nat, prev: Entry?, e: Entry?)
    requires i < slots.Length
    modifies slots, (if prev == null then {} else {prev})`next
    ensures prev == null ==> slots[..] == old(slots[..])[i := e]
    ensures prev != null ==> slots[..] == old(slots[..]) && prev.next == e
  {
    if prev == null {
      slots[i] := e;
    } else {
      prev.next := e;
    }
  }

  /** Links the entry at place `j` of chain `i` out. */
  method Unlink(slots: array<Entry?>, ghost chains: seq<Chain>, i: nat, prev: Entry?, ghost j: nat)
    requires Filed(slots, chains) && Apart(chains) && i < |chains| && j < |chains[i]|
    requires prev == Before(chains[i], j)
    modifies slots, (if prev == null then {} else {prev})`next
    ensures Filed(slots, chains[i := Without(chains[i], j)])
  {
    hide After, First, Without, Apart, Before;
    ghost var c := chains[i];
    PlaceOf(chains, i, j);
    WithoutFirst(c, j);
    var e := if prev == null then slots[i] else prev.next;
    SetLink(slots, i, prev, e.next);
    ghost var d := Without(c, j);
    forall k | 0 <= k < |d| ensures d[k].next == After(d, k) {
      WithoutNext(c, j, k);
    }
  }

  /** What is before a place and what is not. */
  lemma PlaceOf(chains: seq<Chain>, i: nat, j: nat)
    requires Apart(chains) && i < |chains| && j <= |chains[i]|
    ensures var c, prev := chains[i], Before(chains[i], j);
      && (prev == null <==> j == 0)
      && (j == 0 && |c| > 0 ==> First(c) == c[0])
      && (j > 0 ==> prev == c[j - 1] && (j < |c| ==> After(c, j - 1) == c[j]))
      && (forall k | 0 <= k < |c| && c[k] == prev :: k + 1 == j)
      && (forall l | 0 <= l < |chains| && l != i :: prev == null || prev !in chains[l])
  {
    assert Distinct(chains[i]);
    assert j > 0 ==> chains[i][j - 1] in chains[i];
  }

  lemma WithoutFirst(c: Chain, j: nat)
    requires j < |c|
    ensures First(Without(c, j)) == if j == 0 then After(c, 0) else First(c)
  {
  }

  /** Links a new entry behind the last one of chain `i`. */
  method Append(slots: array<Entry?>, ghost chains: seq<Chain>, i: nat, prev: Entry?, e: Entry)
    requires Filed(slots, chains) && Apart(chains) && i < |chains| && e !in EntriesOf(chains) && e.next == null
    requires prev == Before(chains[i], |chains[i]|)
    modifies slots, (if prev == null then {} else {prev})`next
    ensures Filed(slots, chains[i := chains[i] + [e]])
  {
    hide After, First, Apart, Before;
    ghost var c := chains[i];
    PlaceOf(chains, i, |c|);
    AppendNext(c, e);
    assert Linked(c);
    SetLink(slots, i, prev, e);
    assert Linked(c + [e]);
  }

  lemma AppendNext(c: Chain, e: Entry)
    ensures First(c + [e]) == if |c| == 0 then e else c[0]
    ensures |c| > 0 ==> First(c) == c[0]
    ensures forall k | 0 <= k < |c| :: (c + [e])[k] == c[k] && After(c + [e], k) == if k == |c| - 1 then e else After(c, k)
    ensures After(c + [e], |c|) == null && (c + [e])[|c|] == e
  {
  }

  /** Links an entry before the first one of chain `i`. */
  method Push(slots: array<Entry?>, ghost chains: seq<Chain>, i: nat, e: Entry)
    requires Filed(slots, chains) && i < |chains| && e !in EntriesOf(chains)
    modifies slots, e`next
    ensures Filed(slots, chains[i := [e] + chains[i]])
  {
    hide After, First;
    ghost var c := chains[i];
    PushNext(c, e);
    e.next := slots[i];
    slots[i] := e;
    assert Linked([e] + c);
  }

  lemma PushNext(c: Chain, e: Entry)
    ensures First([e] + c) == e && After([e] + c, 0) == First(c)
    ensures forall k | 0 < k <= |c| :: ([e] + c)[k] == c[k - 1] && After([e] + c, k) == After(c, k - 1)
  {
  }

  // What the chains hold.

  /** A new key at either end of its chain. */
  lemma BucketMore(c: Chain, d: Chain, e: Entry, h: Hasher, max: nat, i: nat, m: map<Key, Ptr>)
    requires Bucket(c, h, max, i, m) && e.key !in m && e.hash == HashOf(h, e.key)
    requires d == [e] + c || d == c + [e]
    ensures And(e.hash, max) == i ==> Bucket(d, h, max, i, m[e.key := e.val])
    ensures And(e.hash, max) != i ==> Bucket(c, h, max, i, m[e.key := e.val])
  {
    var m' := m[e.key := e.val];
    assert forall j | 0 <= j < |c| :: Good(c[j], h, max, i, m) && Good(c[j], h, max, i, m');
    if And(e.hash, max) == i {
      assert Good(e, h, max, i, m');
      assert forall x | x in d :: x == e || x in c;
      forall k | k in m' && SlotOf(h, max, k) == i ensures HasKey(d, k) {
        HasKeyJoin([e], c, k);
        HasKeyJoin(c, [e], k);
        assert [e][0].key == e.key;
      }
    }
  }

  /** A key fewer. */
  lemma BucketLess(c: Chain, j: nat, h: Hasher, max: nat, i: nat, m: map<Key, Ptr>)
    requires Bucket(c, h, max, i, m) && j < |c|
    ensures Bucket(Without(c, j), h, max, i, m - {c[j].key})
  {
    var d, m' := Without(c, j), m - {c[j].key};
    forall k | 0 <= k < |d| ensures d[k] == c[if k < j then k else k + 1] && Good(d[k], h, max, i, m') {
      assert Good(c[if k < j then k else k + 1], h, max, i, m);
    }
    forall k | k in m' && SlotOf(h, max, k) == i ensures HasKey(d, k) {
      assert HasKey(c, k);
      var l :| 0 <= l < |c| && c[l].key == k;
      assert d[if l < j then l else l - 1] == c[l];
    }
  }

  /** Chains of other slots do not have the key. */
  lemma BucketOther(c: Chain, h: Hasher, max: nat, i: nat, m: map<Key, Ptr>, m': map<Key, Ptr>, key: Key)
    requires Bucket(c, h, max, i, m) && SlotOf(h, max, key) != i && m - {key} == m' - {key}
    ensures Bucket(c, h, max, i, m')
  {
    forall j | 0 <= j < |c| ensures Good(c[j], h, max, i, m') {
      assert Good(c[j], h, max, i, m);
      assert c[j].key in m - {key};
      assert m[c[j].key] == (m - {key})[c[j].key] == m'[c[j].key];
    }
    forall k | k in m' && SlotOf(h, max, k) == i ensures HasKey(c, k) {
      assert k in m' - {key};
    }
  }

  lemma BucketsMore(chains: seq<Chain>, i: nat, d: Chain, e: Entry, h: Hasher, max: nat, m: map<Key, Ptr>)
    requires Buckets(chains, h, max, m) && e.key !in m && e.hash == HashOf(h, e.key) && i == And(e.hash, max)
    requires d == [e] + chains[i] || d == chains[i] + [e]
    ensures Buckets(chains[i := d], h, max, m[e.key := e.val])
  {
    hide Bucket;
    var after := chains[i := d];
    forall l | 0 <= l < |after| ensures Bucket(after[l], h, max, l, m[e.key := e.val]) {
      if l == i {
        BucketMore(chains[i], d, e, h, max, i, m);
      } else {
        BucketMore(chains[l], [e] + chains[l], e, h, max, l, m);
      }
    }
  }

  lemma BucketsLess(chains: seq<Chain>, i: nat, j: nat, h: Hasher, max: nat, m: map<Key, Ptr>)
    requires Buckets(chains, h, max, m) && i < |chains| && j < |chains[i]|
    ensures chains[i][j].key in m && Buckets(chains[i := Without(chains[i], j)], h, max, m - {chains[i][j].key})
  {
    var e := chains[i][j];
    var after := chains[i := Without(chains[i], j)];
    assert Bucket(chains[i], h, max, i, m) && Good(e, h, max, i, m);
    forall l | 0 <= l < |after| ensures Bucket(after[l], h, max, l, m - {e.key}) {
      if l == i {
        BucketLess(chains[i], j, h, max, i, m);
      } else {
        BucketOther(chains[l], h, max, l, m, m - {e.key}, e.key);
      }
    }
  }

  lemma ApartTake(chains: seq<Chain>, i: nat, j: nat)
    requires Apart(chains) && i < |chains| && j < |chains[i]|
    ensures var after := chains[i := Without(chains[i], j)];
      Apart(after) && chains[i][j] !in EntriesOf(after) && EntriesOf(after) + {chains[i][j]} == EntriesOf(chains)
  {
    var c, e := chains[i], chains[i][j];
    var d := Without(c, j);
    var after := chains[i := d];
    assert Distinct(c);
    assert c == c[..j] + [e] + c[j + 1..];
    forall x ensures x in c <==> x == e || x in d {}
    assert Distinct(d) && e !in d by {
      forall k | 0 <= k < |d| ensures d[k] == c[if k < j then k else k + 1] {}
    }
    SameEntries(chains, after, i, e);
  }

  lemma InChains(chains: seq<Chain>, x: Entry)
    ensures x in EntriesOf(chains) <==> exists i | 0 <= i < |chains| :: x in chains[i]
  {
    if x in EntriesOf(chains) {
      var i, j :| 0 <= i < |chains| && 0 <= j < |chains[i]| && x == chains[i][j];
      assert x in chains[i];
    }
    if i :| 0 <= i < |chains| && x in chains[i] {
      var j :| 0 <= j < |chains[i]| && x == chains[i][j];
    }
  }

  lemma InUpdated(chains: seq<Chain>, after: seq<Chain>, i: nat, x: Entry)
    requires |chains| == |after| && i < |chains| && after == chains[i := after[i]]
    ensures x in EntriesOf(after) ==> x in after[i] || x in EntriesOf(chains)
    ensures x in EntriesOf(chains) ==> x in chains[i] || x in EntriesOf(after)
    ensures x in chains[i] ==> x in EntriesOf(chains)
    ensures x in after[i] ==> x in EntriesOf(after)
  {
    InChains(chains, x);
    InChains(after, x);
    if x in EntriesOf(after) {
      var k :| 0 <= k < |after| && x in after[k];
      assert k != i ==> x in chains[k];
    }
    if x in EntriesOf(chains) {
      var k :| 0 <= k < |chains| && x in chains[k];
      assert k != i ==> x in after[k];
    }
  }

  /** `e` is in one chain more. */
  lemma SameEntries(chains: seq<Chain>, after: seq<Chain>, i: nat, e: Entry)
    requires Apart(chains) && |chains| == |after| && i < |chains| && after == chains[i := after[i]]
    requires forall x :: x in chains[i] <==> x == e || x in after[i]
    requires e !in after[i]
    ensures e !in EntriesOf(after) && EntriesOf(after) + {e} == EntriesOf(chains)
  {
    forall x ensures x in EntriesOf(chains) <==> x == e || x in EntriesOf(after) {
      InUpdated(chains, after, i, x);
    }
    InChains(after, e);
    assert forall k | 0 <= k < |after| && k != i :: after[k] == chains[k] && e !in chains[k];
  }

  lemma ApartPut(chains: seq<Chain>, i: nat, d: Chain, e: Entry)
    requires Apart(chains) && i < |chains| && e !in EntriesOf(chains)
    requires d == [e] + chains[i] || d == chains[i] + [e]
    ensures Apart(chains[i := d]) && EntriesOf(chains[i := d]) == EntriesOf(chains) + {e}
  {
    var after := chains[i := d];
    InChains(chains, e);
    assert Distinct(chains[i]);
    forall x ensures x in d <==> x == e || x in chains[i] {}
    assert Distinct(d) by {
      assert forall k | 0 <= k < |chains[i]| :: chains[i][k] in chains[i];
    }
    forall x ensures x in EntriesOf(after) <==> x == e || x in EntriesOf(chains) {
      InUpdated(chains, after, i, x);
    }
  }

  // What an operation reads off.

  lemma BucketOf(chains: seq<Chain>, i: nat, h: Hasher, max: nat, m: map<Key, Ptr>)
    requires Buckets(chains, h, max, m) && i <= max
    ensures i < |chains| && Bucket(chains[i], h, max, i, m)
  {
  }

  lemma NextIs(c: Chain, j: nat)
    requires Linked(c) && j < |c|
    ensures c[j].next == if j + 1 < |c| then c[j + 1] else null
  {
  }

  lemma EntryHolds(c: Chain, j: nat, h: Hasher, max: nat, i: nat, m: map<Key, Ptr>)
    requires Bucket(c, h, max, i, m) && j < |c|
    ensures c[j].hash == HashOf(h, c[j].key) && c[j].key in m && m[c[j].key] == c[j].val
  {
    assert Good(c[j], h, max, i, m);
  }

  lemma NotThere(c: Chain, h: Hasher, max: nat, i: nat, m: map<Key, Ptr>, key: Key)
    requires Bucket(c, h, max, i, m) && SlotOf(h, max, key) == i
    requires forall j | 0 <= j < |c| :: c[j].key != key
    ensures key !in m
  {
    assert !HasKey(c, key);
  }

  lemma ChainIs(slots: array<Entry?>, chains: seq<Chain>, i: nat)
    requires Filed(slots, chains) && i < |chains|
    ensures slots.Length == |chains| && Linked(chains[i]) && slots[i] == if |chains[i]| > 0 then chains[i][0] else null
  {
  }

  /** A new value for the key of the entry at place `j` of chain `i`. */
  method Rewrite(ghost chains: seq<Chain>, ghost h: Hasher, ghost max: nat, ghost m: map<Key, Ptr>, ghost i: nat, ghost j: nat, e: Entry, val: Ptr)
    requires Buckets(chains, h, max, m) && Apart(chains) && i < |chains| && j < |chains[i]| && e == chains[i][j]
    modifies e`val
    ensures Buckets(chains, h, max, m[e.key := val])
  {
    hide Bucket;
    ghost var k := e.key;
    forall l | 0 <= l < |chains| && l != i ensures e !in chains[l] {
      ElsewhereNot(chains, h, max, m, i, j, l);
    }
    forall l | 0 <= l < |chains| && l != i ensures Bucket(chains[l], h, max, l, m[k := val]) {
      ElsewhereNot(chains, h, max, m, i, j, l);
      BucketOther(chains[l], h, max, l, m, m[k := val], k);
    }
    ghost var c := chains[i];
    AllButOne(c, h, max, i, j, m);
    e.val := val;
    BucketRewritten(c, h, max, i, j, m, val);
  }

  lemma AllButOne(c: Chain, h: Hasher, max: nat, i: nat, j: nat, m: map<Key, Ptr>)
    requires Bucket(c, h, max, i, m) && Distinct(c) && j < |c|
    ensures forall k | 0 <= k < |c| && k != j :: Good(c[k], h, max, i, m) && c[k] != c[j]
    ensures c[j].hash == HashOf(h, c[j].key) && And(c[j].hash, max) == i && Covers(c, h, max, i, m)
  {
    assert Good(c[j], h, max, i, m);
  }

  lemma ElsewhereNot(chains: seq<Chain>, h: Hasher, max: nat, m: map<Key, Ptr>, i: nat, j: nat, l: nat)
    requires Buckets(chains, h, max, m) && Apart(chains) && i < |chains| && j < |chains[i]| && l < |chains| && l != i
    ensures SlotOf(h, max, chains[i][j].key) == i && chains[i][j] !in chains[l]
  {
    assert Bucket(chains[i], h, max, i, m) && Good(chains[i][j], h, max, i, m);
    assert Disjoint(chains[if i < l then i else l], chains[if i < l then l else i]);
  }

  ghost predicate Covers(c: Chain, h: Hasher, max: nat, i: nat, m: map<Key, Ptr>)
    reads c`key
  {
    DistinctKeys(c) && forall k {:trigger HasKey(c, k)} | k in m && SlotOf(h, max, k) == i :: HasKey(c, k)
  }

  lemma BucketRewritten(c: Chain, h: Hasher, max: nat, i: nat, j: nat, m: map<Key, Ptr>, val: Ptr)
    requires j < |c| && forall k | 0 <= k < |c| && k != j :: Good(c[k], h, max, i, m)
    requires c[j].hash == HashOf(h, c[j].key) && And(c[j].hash, max) == i && c[j].val == val && Covers(c, h, max, i, m)
    ensures Bucket(c, h, max, i, m[c[j].key := val])
  {
    var m' := m[c[j].key := val];
    forall k | 0 <= k < |c| ensures Good(c[k], h, max, i, m') {}
    forall k | k in m' && SlotOf(h, max, k) == i ensures HasKey(c, k) {}
  }

  /** The live entries are in one place each, and so are the recycled ones. */
  predicate Owned(chains: seq<Chain>, recycled: Chain) {
    Apart(chains) && Distinct(recycled) && forall e | e in recycled :: e !in EntriesOf(chains)
  }

  lemma TakeFree(chains: seq<Chain>, recycled: Chain)
    requires Owned(chains, recycled) && |recycled| > 0
    ensures recycled[0] !in EntriesOf(chains) && recycled[0] !in recycled[1..] && Owned(chains, recycled[1..])
    ensures recycled == [recycled[0]] + recycled[1..]
    ensures Linked(recycled) ==> recycled[0].next == First(recycled[1..]) && Linked(recycled[1..])
  {
    hide EntriesOf, Apart;
    assert recycled[0] in recycled;
    TakeDistinct(recycled);
    LinkedRest(recycled);
  }

  lemma TakeDistinct(c: Chain)
    requires Distinct(c) && |c| > 0
    ensures Distinct(c[1..]) && c[0] !in c[1..] && c == [c[0]] + c[1..]
  {
  }

  lemma LinkedRest(c: Chain)
    requires |c| > 0
    ensures Linked(c) ==> c[0].next == First(c[1..]) && Linked(c[1..])
  {
    assert forall j | 0 <= j < |c| - 1 :: c[1..][j] == c[j + 1] && After(c[1..], j) == After(c, j + 1);
  }

  lemma OwnMore(chains: seq<Chain>, recycled: Chain, i: nat, d: Chain, e: Entry)
    requires Owned(chains, recycled) && i < |chains| && e !in EntriesOf(chains) && e !in recycled
    requires d == [e] + chains[i] || d == chains[i] + [e]
    ensures Owned(chains[i := d], recycled) && EntriesOf(chains[i := d]) == EntriesOf(chains) + {e}
    ensures Apart(chains)
  {
    ApartPut(chains, i, d, e);
  }

  lemma OwnLess(chains: seq<Chain>, recycled: Chain, i: nat, j: nat)
    requires Owned(chains, recycled) && i < |chains| && j < |chains[i]|
    ensures var after, e := chains[i := Without(chains[i], j)], chains[i][j];
      Owned(after, [e] + recycled) && EntriesOf(after) + {e} == EntriesOf(chains) && e !in EntriesOf(after) && e !in recycled
  {
    ApartTake(chains, i, j);
    var e := chains[i][j];
    assert e in EntriesOf(chains) && e !in recycled;
    assert Distinct([e] + recycled) by {
      assert forall k | 0 <= k < |recycled| :: recycled[k] in recycled;
    }
  }

  lemma PrevIs(chains: seq<Chain>, recycled: Chain, i: nat, j: nat)
    requires Owned(chains, recycled) && i < |chains| && j <= |chains[i]|
    ensures var prev := Before(chains[i], j); prev == null || (prev in EntriesOf(chains) && prev !in recycled)
  {
  }

  lemma LinkedFront(c: Chain, e: Entry)
    requires Linked(c) && e.next == First(c)
    ensures Linked([e] + c) && First([e] + c) == e
  {
    PushNext(c, e);
  }

  lemma InAll(chains: seq<Chain>, i: nat, j: nat)
    requires i < |chains| && j < |chains[i]|
    ensures chains[i][j] in EntriesOf(chains)
  {
  }

  lemma OwnedApart(chains: seq<Chain>, recycled: Chain)
    requires Owned(chains, recycled)
    ensures Apart(chains)
  {
  }

  lemma BucketsHave(chains: seq<Chain>, i: nat, j: nat, h: Hasher, max: nat, m: map<Key, Ptr>)
    requires Buckets(chains, h, max, m) && i < |chains| && j < |chains[i]|
    ensures var e := chains[i][j]; e.key in m && m[e.key] == e.val && e.hash == HashOf(h, e.key)
  {
    assert Bucket(chains[i], h, max, i, m) && Good(chains[i][j], h, max, i, m);
  }

  // Iteration.

  /** What an iteration has still to come to: the rest of a chain, and the chains from slot `index` on. */
  ghost predicate Pending(slots: array<Entry?>, next: Entry?, index: nat, rest: seq<Chain>)
    reads slots, EntriesOf(rest)`next
  {
    && index <= slots.Length && |rest| == slots.Length - index + 1
    && (forall k | 0 <= k < |rest| :: Linked(rest[k]))
    && next == First(rest[0])
    && forall k {:trigger rest[k]} | 0 < k < |rest| :: slots[index + k - 1] == First(rest[k])
  }

  /** An iteration has passed `d` chains that had nothing, to the entry `e`. */
  predicate Skipped(rest: seq<Chain>, d: nat, e: Entry?, after: seq<Chain>) {
    && e != null && d < |rest| && |after| == |rest| - d
    && (forall k | 0 <= k < d :: rest[k] == [])
    && rest[d] == [e] + after[0] && after[1..] == rest[d + 1..]
  }

  /** An iteration has passed `d` chains that had nothing. */
  predicate Passed(rest: seq<Chain>, d: nat, after: seq<Chain>) {
    d < |rest| && after == rest[d..] && forall k | 0 <= k < d :: rest[k] == []
  }

  lemma PassedNone(rest: seq<Chain>)
    requires |rest| > 0
    ensures Passed(rest, 0, rest)
  {
  }

  lemma PassedMore(rest: seq<Chain>, d: nat, after: seq<Chain>)
    requires Passed(rest, d, after) && |after| > 1 && after[0] == []
    ensures Passed(rest, d + 1, after[1..])
  {
  }

  lemma PassedDone(rest: seq<Chain>, d: nat, after: seq<Chain>)
    requires Passed(rest, d, after) && |after| > 0 && |after[0]| > 0
    ensures Skipped(rest, d, after[0][0], after[0 := after[0][1..]])
  {
    assert after[0] == [after[0][0]] + after[0][1..];
    assert after[0 := after[0][1..]][1..] == rest[d + 1..];
  }

  lemma PendingAll(slots: array<Entry?>, chains: seq<Chain>)
    requires Filed(slots, chains)
    ensures Pending(slots, null, 0, [[]] + chains) && Flat([[]] + chains) == Flat(chains)
  {
    assert ([[]] + chains)[1..] == chains;
  }

  lemma PendingEnd(slots: array<Entry?>, rest: seq<Chain>)
    requires Pending(slots, null, slots.Length, rest)
    ensures Flat(rest) == []
  {
    assert rest[0] == [] && rest[1..] == [];
  }

  lemma PendingSlot(slots: array<Entry?>, index: nat, rest: seq<Chain>)
    requires Pending(slots, null, index, rest) && index < slots.Length
    ensures |rest| > 1 && rest[0] == []
    ensures Pending(slots, slots[index], index + 1, rest[1..]) && Flat(rest[1..]) == Flat(rest)
  {
    var less := rest[1..];
    assert rest[0] == [];
    assert forall k | 0 <= k < |less| :: less[k] == rest[k + 1];
  }

  lemma PendingSome(slots: array<Entry?>, next: Entry?, index: nat, rest: seq<Chain>)
    requires Pending(slots, next, index, rest)
    ensures index <= slots.Length && |rest| > 0
  {
  }

  lemma PendingNext(slots: array<Entry?>, e: Entry, index: nat, rest: seq<Chain>)
    requires Pending(slots, e, index, rest)
    ensures |rest| > 0 && |rest[0]| > 0 && e == rest[0][0]
    ensures Pending(slots, e.next, index, rest[0 := rest[0][1..]])
    ensures Flat(rest) == [e] + Flat(rest[0 := rest[0][1..]])
  {
    var after := rest[0 := rest[0][1..]];
    LinkedRest(rest[0]);
    assert after[1..] == rest[1..];
    assert rest[0] == [e] + after[0];
  }

  lemma ListsMore(seen: Chain, e: Entry, rest: Chain, done: map<Key, Ptr>, m: map<Key, Ptr>)
    requires Lists(seen, done) && Lists(seen + [e] + rest, m)
    ensures e.key !in done && Lists(seen + [e], done[e.key := e.val])
    ensures e.key in m && m[e.key] == e.val
  {
    var all := seen + [e] + rest;
    assert all[|seen|] == e;
    assert forall j | 0 <= j < |seen| :: all[j] == seen[j];
    forall j | 0 <= j < |seen| ensures seen[j].key != e.key {
      assert all[j].key != all[|seen|].key;
    }
    assert e.key in done ==> HasKey(seen, e.key);
    forall k | k in done[e.key := e.val] ensures HasKey(seen + [e], k) {
      HasKeyJoin(seen, [e], k);
      assert [e][0].key == e.key;
    }
  }

  /** The entries know their hash values. */
  ghost predicate Hashed(c: Chain, h: Hasher)
    reads c`hash, c`key
  {
    forall j | 0 <= j < |c| :: c[j].hash == HashOf(h, c[j].key)
  }

  lemma {:induction false} FlatHashed(chains: seq<Chain>, h: Hasher, max: nat, m: map<Key, Ptr>)
    requires Buckets(chains, h, max, m)
    ensures Hashed(Flat(chains), h)
  {
    forall j | 0 <= j < |Flat(chains)| ensures Flat(chains)[j].hash == HashOf(h, Flat(chains)[j].key) {
      var e := Flat(chains)[j];
      FlatHas(chains, e);
      var i, l :| 0 <= i < |chains| && 0 <= l < |chains[i]| && chains[i][l] == e;
      BucketsHave(chains, i, l, h, max, m);
    }
  }

  /** The entries seen so far are filed in other slots. */
  ghost predicate Refiled(slots: array<Entry?>, chains: seq<Chain>, seen: Chain, done: map<Key, Ptr>, h: Hasher, max: nat)
    reads slots, EntriesOf(chains), seen
  {
    && slots.Length == |chains| == max + 1
    && Filed(slots, chains) && Apart(chains) && EntriesOf(chains) == (set e | e in seen)
    && Buckets(chains, h, max, done) && Lists(seen, done)
  }

  lemma RefiledNone(slots: array<Entry?>, chains: seq<Chain>, h: Hasher, max: nat)
    requires slots.Length == |chains| == max + 1
    requires forall i | 0 <= i < |chains| :: chains[i] == [] && slots[i] == null
    ensures Refiled(slots, chains, [], map[], h, max)
  {
  }

  /** Files one more entry. */
  method Refile(slots: array<Entry?>, ghost chains: seq<Chain>, ghost seen: Chain, ghost done: map<Key, Ptr>, ghost h: Hasher, max: nat, e: Entry)
    returns (ghost after: seq<Chain>)
    requires Refiled(slots, chains, seen, done, h, max) && e !in seen && e.hash == HashOf(h, e.key)
    requires e.key !in done && Lists(seen + [e], done[e.key := e.val])
    modifies slots, e`next
    ensures Refiled(slots, after, seen + [e], done[e.key := e.val], h, max)
  {
    hide Filed, Apart, Buckets, Lists, And, HashOf, EntriesOf;
    var i := And(e.hash, max);
    after := chains[i := [e] + chains[i]];
    BucketsMore(chains, i, [e] + chains[i], e, h, max, done);
    ApartPut(chains, i, [e] + chains[i], e);
    Push(slots, chains, i, e);
  }

  /** The entry that an iteration is at comes no more, and has not come yet. */
  lemma OnlyOnce(all: Chain, seen: Chain, e: Entry, rest: seq<Chain>)
    requires Distinct(all) && all == seen + [e] + Flat(rest)
    ensures e !in seen && e !in EntriesOf(rest) && all[|seen|] == e
  {
    assert all[|seen|] == e;
    assert forall j | 0 <= j < |seen| :: all[j] == seen[j];
    assert forall j | 0 <= j < |Flat(rest)| :: all[|seen| + 1 + j] == Flat(rest)[j];
    FlatHas(rest, e);
  }

  lemma RefiledAll(slots: array<Entry?>, chains: seq<Chain>, seen: Chain, done: map<Key, Ptr>, h: Hasher, max: nat, m: map<Key, Ptr>, old_chains: seq<Chain>, recycled: Chain)
    requires Refiled(slots, chains, seen, done, h, max) && Lists(seen, m) && seen == Flat(old_chains) && Owned(old_chains, recycled)
    ensures done == m && EntriesOf(chains) == EntriesOf(old_chains) && Owned(chains, recycled)
    ensures slots.Length == |chains| == max + 1 && Filed(slots, chains) && Buckets(chains, h, max, m)
  {
    ListsUnique(seen, m, done);
    forall e ensures e in EntriesOf(chains) <==> e in EntriesOf(old_chains) {
      FlatHas(old_chains, e);
    }
  }

  lemma HashIs(c: Chain, j: nat, h: Hasher)
    requires Hashed(c, h) && j < |c|
    ensures c[j].hash == HashOf(h, c[j].key)
  {
  }

  /** All entries together. */
  lemma FlatAll(chains: seq<Chain>, recycled: Chain, h: Hasher, max: nat, m: map<Key, Ptr>)
    requires Owned(chains, recycled) && Buckets(chains, h, max, m)
    ensures Distinct(Flat(chains)) && Lists(Flat(chains), m) && |Flat(chains)| == |m| && Hashed(Flat(chains), h)
  {
    FlatDistinct(chains);
    FlatLists(chains, h, max, m);
    FlatHashed(chains, h, max, m);
  }

  lemma FlatOwned(chains: seq<Chain>, recycled: Chain, e: Entry)
    requires Owned(chains, recycled) && e in Flat(chains)
    ensures e in EntriesOf(chains) && e !in recycled
  {
    FlatHas(chains, e);
  }

  lemma RefiledLists(slots: array<Entry?>, chains: seq<Chain>, seen: Chain, done: map<Key, Ptr>, h: Hasher, max: nat)
    requires Refiled(slots, chains, seen, done, h, max)
    ensures Lists(seen, done)
  {
  }

  /** The chains without one entry. */
  lemma Deleted(chains: seq<Chain>, recycled: Chain, i: nat, j: nat, h: Hasher, max: nat, m: map<Key, Ptr>, after: seq<Chain>)
    requires Owned(chains, recycled) && Buckets(chains, h, max, m) && i < |chains| && j < |chains[i]|
    requires after == chains[i := Without(chains[i], j)]
    ensures var e, prev := chains[i][j], Before(chains[i], j);
      && Owned(after, [e] + recycled) && e !in EntriesOf(after) && e !in recycled
      && e in EntriesOf(chains) && EntriesOf(after) + {e} == EntriesOf(chains)
      && e.key in m && Buckets(after, h, max, m - {e.key})
      && Apart(chains) && (prev == null || (prev in EntriesOf(chains) && prev !in recycled))
  {
    PrevIs(chains, recycled, i, j);
    InAll(chains, i, j);
    OwnLess(chains, recycled, i, j);
    BucketsLess(chains, i, j, h, max, m);
  }

  /** An iteration that empties the table is at the first entry that there is. */
  predicate Current(chains: seq<Chain>, e: Entry?, next: Entry?, index: nat, rest: seq<Chain>) {
    && e != null && 0 < index <= |chains| && |rest| == |chains| - index + 1
    && (forall k | 0 <= k < index - 1 :: chains[k] == [])
    && chains[index - 1] == [e] + rest[0] && rest[1..] == chains[index..]
    && next == First(rest[0])
  }

  predicate Emptied(chains: seq<Chain>, next: Entry?, index: nat, rest: seq<Chain>) {
    && 0 < index <= |chains| && |rest| == |chains| - index + 1
    && (forall k | 0 <= k < index - 1 :: chains[k] == [])
    && chains[index - 1] == rest[0] && rest[1..] == chains[index..]
    && next == First(rest[0])
  }

  lemma CurrentFirst(slots: array<Entry?>, chains: seq<Chain>, e: Entry?, next: Entry?, index: nat, rest: seq<Chain>)
    requires |chains| == slots.Length && Skipped([[]] + chains, index, e, rest) && Pending(slots, next, index, rest)
    ensures Current(chains, e, next, index, rest)
  {
    var all := [[]] + chains;
    assert forall k | 0 < k < |all| :: all[k] == chains[k - 1];
    assert index > 0;
    assert all[index + 1..] == chains[index..];
    forall k | 0 <= k < index - 1 ensures chains[k] == [] {
      assert all[k + 1] == chains[k];
    }
  }

  lemma SamePlace(chains: seq<Chain>, i: nat, j: nat, i': nat, j': nat, h: Hasher, max: nat, m: map<Key, Ptr>)
    requires Buckets(chains, h, max, m) && i < |chains| && j < |chains[i]| && i' < |chains| && j' < |chains[i']|
    requires chains[i][j].key == chains[i'][j'].key
    ensures i == i' && j == j'
  {
    assert Bucket(chains[i], h, max, i, m) && Bucket(chains[i'], h, max, i', m);
    assert Good(chains[i][j], h, max, i, m) && Good(chains[i'][j'], h, max, i', m);
    assert DistinctKeys(chains[i]);
  }

  /** The key of the current entry is nowhere else. */
  lemma CurrentKey(chains: seq<Chain>, e: Entry?, next: Entry?, index: nat, rest: seq<Chain>, h: Hasher, max: nat, m: map<Key, Ptr>)
    requires Current(chains, e, next, index, rest) && Buckets(chains, h, max, m)
    ensures e != null && e.key in m
    ensures forall i, j | 0 <= i < |chains| && 0 <= j < |chains[i]| && chains[i][j].key == e.key :: i == index - 1 && j == 0
  {
    assert chains[index - 1][0] == e;
    BucketsHave(chains, index - 1, 0, h, max, m);
    forall i, j | 0 <= i < |chains| && 0 <= j < |chains[i]| && chains[i][j].key == e.key ensures i == index - 1 && j == 0 {
      SamePlace(chains, i, j, index - 1, 0, h, max, m);
    }
  }

  lemma CurrentDeleted(chains: seq<Chain>, e: Entry?, next: Entry?, index: nat, rest: seq<Chain>, after: seq<Chain>)
    requires Current(chains, e, next, index, rest) && after == chains[index - 1 := Without(chains[index - 1], 0)]
    ensures Emptied(after, next, index, rest)
  {
    assert Without(chains[index - 1], 0) == rest[0];
    assert after[index..] == chains[index..];
  }

  lemma EmptiedPending(slots: array<Entry?>, chains: seq<Chain>, next: Entry?, index: nat, rest: seq<Chain>)
    requires Emptied(chains, next, index, rest) && Filed(slots, chains)
    ensures Pending(slots, next, index, rest) && Flat(rest) == Flat(chains)
  {
    forall k | 0 <= k < |rest| ensures rest[k] == chains[index - 1 + k] {
      assert k > 0 ==> rest[k] == rest[1..][k - 1] && chains[index + (k - 1)] == chains[index..][k - 1];
    }
    assert rest == chains[index - 1..];
    FlatEmpty(chains, index - 1);
  }

  lemma {:induction false} FlatEmpty(chains: seq<Chain>, n: nat)
    requires n <= |chains| && forall k | 0 <= k < n :: chains[k] == []
    ensures Flat(chains[n..]) == Flat(chains)
  {
    if n > 0 {
      assert chains[n - 1..][0] == chains[n - 1] && chains[n - 1..][1..] == chains[n..];
      FlatEmpty(chains, n - 1);
    } else {
      assert chains[0..] == chains;
    }
  }

  lemma CurrentNext(slots: array<Entry?>, chains: seq<Chain>, before: seq<Chain>, e: Entry?, next': Entry?, next: Entry?, index: nat, index': nat, rest: seq<Chain>)
    requires Emptied(chains, next', index, before) && index <= index'
    requires Skipped(before, index' - index, e, rest) && Pending(slots, next, index', rest) && slots.Length == |chains|
    ensures Current(chains, e, next, index', rest)
  {
    var d := index' - index;
    forall k | 0 <= k < |before| ensures before[k] == chains[index - 1 + k] {
      assert k > 0 ==> before[k] == before[1..][k - 1] && chains[index + (k - 1)] == chains[index..][k - 1];
    }
    forall k | 0 <= k < index' - 1 ensures chains[k] == [] {
      assert k >= index - 1 ==> before[k - (index - 1)] == chains[k];
    }
    assert before[d + 1..] == chains[index'..];
  }

  lemma NothingLeft(chains: seq<Chain>, h: Hasher, max: nat, m: map<Key, Ptr>)
    requires Flat(chains) == [] && Buckets(chains, h, max, m)
    ensures m == map[]
  {
    FlatLists(chains, h, max, m);
  }

  lemma {:induction false} DistinctSize(c: Chain)
    requires Distinct(c)
    ensures |set e | e in c| == |c|
  {
    if |c| > 0 {
      var less := c[..|c| - 1];
      DistinctSize(less);
      assert (set e | e in c) == (set e | e in less) + {c[|c| - 1]};
    }
  }

  lemma OwnedSize(chains: seq<Chain>, recycled: Chain)
    requires Owned(chains, recycled)
    ensures |EntriesOf(chains) + (set e | e in recycled)| == |Flat(chains)| + |recycled|
  {
    FlatDistinct(chains);
    DistinctSize(Flat(chains));
    DistinctSize(recycled);
    var live := set e | e in Flat(chains);
    forall e | e in live ensures e in EntriesOf(chains) {
      FlatHas(chains, e);
    }
    forall e | e in EntriesOf(chains) ensures e in live {
      FlatHas(chains, e);
    }
    assert EntriesOf(chains) == live;
    assert live !! (set e | e in recycled);
  }
}
