/** The chained hash table: it holds a map from keys to pointers. */
module HashTables {
  import opened Bits
  import opened HashKeys
  import opened HashChains

  const INITIAL_MAX := 15

  /** Where an iteration is: its current entry and what comes next. */
  class Index {
    var cur: Entry?
    var next: Entry?
    var index: nat

    constructor () {
      cur, next, index := null, null, 0;
    }
  }

  class HashTable {
    var slots: array<Entry?>
    var count: nat
    var max: nat
    const hasher: Hasher
    var free: Entry?
    const inner: Index
    ghost var chains: seq<Chain>
    ghost var recycled: Chain
    ghost var m: map<Key, Ptr>

    /** Every entry there is, live or recycled. */
    ghost function Made(): set<Entry>
      reads this
    {
      EntriesOf(chains) + (set e | e in recycled)
    }

    /** Between two steps of an operation the chains may be longer than they should. */
    ghost predicate Shaped()
      reads this, slots, EntriesOf(chains), recycled
    {
      && slots.Length == max + 1 == |chains| && IsMask(max)
      && Owned(chains, recycled)
      && Filed(slots, chains)
      && Linked(recycled) && free == First(recycled)
      && Buckets(chains, hasher, max, m)
      && count == |m|
    }

    ghost predicate Valid()
      reads this, slots, EntriesOf(chains), recycled
    {
      Shaped() && count <= max
    }

    /** `scl_hash_make` and `scl_hash_make_custom`. */
    constructor (hasher: Hasher)
      ensures Valid() && m == map[] && this.hasher == hasher
      ensures max == INITIAL_MAX && Made() == {} && recycled == [] && fresh(slots) && fresh(inner)
    {
      this.hasher := hasher;
      count, max, free := 0, INITIAL_MAX, null;
      slots := new Entry?[INITIAL_MAX + 1](_ => null);
      inner := new Index();
      chains, recycled, m := seq(INITIAL_MAX + 1, _ => []), [], map[];
      new;
      assert IsMask(1) && IsMask(3) && IsMask(7);
    }

    /** A table around chains that have been built already. */
    constructor Of(hasher: Hasher, slots: array<Entry?>, max: nat, count: nat, ghost chains: seq<Chain>, ghost m: map<Key, Ptr>)
      requires slots.Length == max + 1 == |chains| && IsMask(max) && Apart(chains) && Filed(slots, chains)
      requires Buckets(chains, hasher, max, m) && count == |m| <= max
      ensures Valid() && this.m == m && this.hasher == hasher && this.max == max && this.slots == slots
      ensures Made() == EntriesOf(chains) && recycled == [] && fresh(inner)
    {
      this.hasher, this.slots, this.max, this.count, free := hasher, slots, max, count, null;
      inner := new Index();
      this.chains, recycled, this.m := chains, [], m;
    }

    /** The scan in `find_entry`: the place of the key in its chain, or the end of the chain. */
    method Locate(key: seq<char>, klen: int) returns (hash: Word, k: Key, i: nat, prev: Entry?, he: Entry?, ghost j: nat)
      requires Shaped() && Readable(key, klen)
      ensures k == Named(key, klen) && hash == HashOf(hasher, k) && i == And(hash, max) < |chains|
      ensures j <= |chains[i]| && prev == Before(chains[i], j)
      ensures he == if j < |chains[i]| then chains[i][j] else null
      ensures he != null ==> he.key == k && k in m && m[k] == he.val
      ensures he == null ==> k !in m
    {
      var len;
      assert allocated(EntriesOf(chains)) && allocated(recycled);
      hide Shaped, And, HashOf, Before;
      hash, len := HashKey(hasher, key, klen);
      k := key[..len];
      assert k == Named(key, klen);
      i, prev, he, j := Scan(hash, k);
    }

    method Scan(hash: Word, k: Key) returns (i: nat, prev: Entry?, he: Entry?, ghost j: nat)
      requires Shaped() && hash == HashOf(hasher, k)
      ensures i == And(hash, max) < |chains|
      ensures j <= |chains[i]| && prev == Before(chains[i], j)
      ensures he == if j < |chains[i]| then chains[i][j] else null
      ensures he != null ==> he.key == k && k in m && m[k] == he.val
      ensures he == null ==> k !in m
    {
      hide IsMask, Apart, Filed, Buckets, Bucket, HashOf, And, After;
      i := And(hash, max);
      ghost var c := chains[i];
      ChainIs(slots, chains, i);
      BucketOf(chains, i, hasher, max, m);
      prev, he, j := null, slots[i], 0;
      while he != null
        invariant j <= |c| && prev == Before(c, j) && he == if j < |c| then c[j] else null
        invariant forall l | 0 <= l < j :: c[l].key != k
        decreases |c| - j
      {
        EntryHolds(c, j, hasher, max, i, m);
        NextIs(c, j);
        if he.hash == hash && |he.key| == |k| && he.key == k {
          break;
        }
        prev, he, j := he, he.next, j + 1;
      }
      if he == null {
        NotThere(c, hasher, max, i, m, k);
      }
    }

    /** `scl_hash_get`. */
    method Get(key: seq<char>, klen: int) returns (val: Ptr)
      requires Valid() && Readable(key, klen)
      ensures val == if Named(key, klen) in m then m[Named(key, klen)] else Null
    {
      var _, _, _, _, he, _ := Locate(key, klen);
      return if he != null then he.val else Null;
    }

    /** `scl_hash_count`. */
    method Count() returns (n: nat)
      requires Valid()
      ensures n == |m|
    {
      return count;
    }

    /** An entry to use: a recycled one, if there is one. */
    method Acquire() returns (he: Entry)
      requires Shaped()
      modifies this`free, this`recycled
      ensures Shaped() && he !in EntriesOf(chains) && he !in recycled
      ensures fresh(he) || he in old(recycled)
      ensures old(recycled) == [] ==> recycled == [] && fresh(he)
      ensures old(recycled) != [] ==> [he] + recycled == old(recycled)
    {
      hide IsMask, Apart, Owned, Filed, Linked, Buckets, EntriesOf;
      if free != null {
        TakeFree(chains, recycled);
        he := free;
        free := he.next;
        recycled := recycled[1..];
      } else {
        assert allocated(EntriesOf(chains));
        he := new Entry();
      }
    }

    /** The end of `find_entry`: an entry for a new key, at the end of its chain. */
    method Enter(hash: Word, k: Key, i: nat, prev: Entry?, val: Ptr) returns (he: Entry)
      requires Shaped() && hash == HashOf(hasher, k) && i == And(hash, max) && i < |chains| && k !in m
      requires prev == Before(chains[i], |chains[i]|)
      modifies this, slots, EntriesOf(chains), recycled
      ensures Shaped() && m == old(m)[k := val] && max == old(max) && slots == old(slots) && count == old(count) + 1
      ensures chains == old(chains)[i := old(chains[i]) + [he]] && EntriesOf(chains) == old(EntriesOf(chains)) + {he}
      ensures he.key == k && (fresh(he) || he in old(recycled))
      ensures Made() == if old(recycled) == [] then old(Made()) + {he} else old(Made())
      ensures old(recycled) == [] ==> recycled == [] && fresh(he)
      ensures old(recycled) != [] ==> [he] + recycled == old(recycled)
    {
      hide Shaped, IsMask, Before, And, HashOf, EntriesOf;
      he := Acquire();
      Fill(he, hash, k, val);
      PutIn(he, i, prev);
    }

    method Fill(he: Entry, hash: Word, k: Key, val: Ptr)
      requires Shaped() && he !in EntriesOf(chains) && he !in recycled
      modifies he
      ensures Shaped() && he.next == null && he.hash == hash && he.key == k && he.val == val
    {
      hide IsMask, Apart, Owned, Filed, Linked, First, Buckets, EntriesOf;
      he.next := null;
      he.hash, he.key, he.val := hash, k, val;
    }

    method PutIn(he: Entry, i: nat, prev: Entry?)
      requires Shaped() && he.hash == HashOf(hasher, he.key) && i == And(he.hash, max) && i < |chains|
      requires prev == Before(chains[i], |chains[i]|)
      requires he !in EntriesOf(chains) && he !in recycled && he.next == null && he.key !in m
      modifies this`count, this`chains, this`m, slots, EntriesOf(chains)`next
      ensures Shaped() && m == old(m)[he.key := he.val] && count == old(count) + 1
      ensures chains == old(chains)[i := old(chains[i]) + [he]] && EntriesOf(chains) == old(EntriesOf(chains)) + {he}
    {
      hide IsMask, Apart, Owned, Filed, Linked, First, Buckets, Before, And, HashOf, EntriesOf;
      PrevIs(chains, recycled, i, |chains[i]|);
      OwnMore(chains, recycled, i, chains[i] + [he], he);
      assert allocated(EntriesOf(chains));
      Append(slots, chains, i, prev, he);
      BucketsMore(chains, i, chains[i] + [he], he, hasher, max, m);
      chains := chains[i := chains[i] + [he]];
      count := count + 1;
      m := m[he.key := he.val];
    }

    /** The deletion in `scl_hash_set`: the entry goes from its chain to the recycled ones. */
    method Delete(i: nat, prev: Entry?, he: Entry, ghost j: nat)
      requires Shaped() && i < |chains| && j < |chains[i]| && he == chains[i][j] && prev == Before(chains[i], j)
      modifies this, slots, EntriesOf(chains)`next
      ensures he.key in old(m) && Shaped() && m == old(m) - {he.key}
      ensures max == old(max) && slots == old(slots) && count == old(count) - 1
      ensures chains == old(chains)[i := Without(old(chains[i]), j)] && recycled == [he] + old(recycled)
      ensures Made() == old(Made())
    {
      hide IsMask, Apart, Owned, Filed, Linked, First, Buckets, Before, Without, EntriesOf;
      ghost var after := chains[i := Without(chains[i], j)];
      Deleted(chains, recycled, i, j, hasher, max, m, after);
      assert allocated(EntriesOf(after)) && allocated(recycled);
      Unlink(slots, chains, i, prev, j);
      Recycle(he, after);
    }

    /** Puts the entry in front of the recycled ones. */
    method Recycle(he: Entry, ghost after: seq<Chain>)
      requires slots.Length == max + 1 == |after| && IsMask(max) && Filed(slots, after) && Linked(recycled) && free == First(recycled)
      requires Owned(after, [he] + recycled) && he !in EntriesOf(after) && he !in recycled
      requires he.key in m && Buckets(after, hasher, max, m - {he.key}) && count == |m|
      modifies this`free, this`recycled, this`count, this`chains, this`m, he`next
      ensures Shaped() && m == old(m) - {he.key} && chains == after && recycled == [he] + old(recycled) && count == old(count) - 1
    {
      hide IsMask, Apart, Owned, Filed, Linked, First, Buckets, EntriesOf;
      he.next := free;
      LinkedFront(recycled, he);
      free := he;
      recycled := [he] + recycled;
      count := count - 1;
      chains := after;
      m := m - {he.key};
    }

    /** The replacement in `scl_hash_set`. */
    method Replace(he: Entry, val: Ptr, ghost i: nat, ghost j: nat)
      requires Shaped() && i < |chains| && j < |chains[i]| && he == chains[i][j]
      modifies this`m, he`val
      ensures Shaped() && m == old(m)[he.key := val]
    {
      hide IsMask, Apart, Owned, Filed, Linked, First, Buckets, EntriesOf;
      OwnedApart(chains, recycled);
      InAll(chains, i, j);
      BucketsHave(chains, i, j, hasher, max, m);
      assert allocated(EntriesOf(chains)) && allocated(recycled);
      Rewrite(chains, hasher, max, m, i, j, he, val);
      assert m[he.key := val].Keys == m.Keys;
      m := m[he.key := val];
    }

    /** `scl_hash_set`: a null value deletes the key. */
    method Set(key: seq<char>, klen: int, val: Ptr) returns (ghost i: nat, ghost j: nat)
      requires Valid() && Readable(key, klen)
      modifies this, slots, inner, EntriesOf(chains), recycled
      ensures Valid() && m == Updated(old(m), Named(key, klen), val)
      ensures if Named(key, klen) in old(m) || val == Null || old(recycled) != [] then Made() == old(Made())
        else exists e :: fresh(e) && Made() == old(Made()) + {e}
      ensures max == if count > old(max) then 2 * old(max) + 1 else old(max)
      ensures val == Null ==> slots == old(slots) && inner.cur == old(inner.cur) && inner.next == old(inner.next) && inner.index == old(inner.index)
      ensures val == Null && Named(key, klen) in old(m) ==>
        && i < |old(chains)| && j < |old(chains)[i]| && old(chains[i][j].key) == Named(key, klen)
        && chains == old(chains)[i := Without(old(chains)[i], j)]
    {
      hide Shaped, Before, HashOf, And, Named, EntriesOf;
      var hash, k, slot, prev, he;
      assert allocated(EntriesOf(chains)) && allocated(recycled);
      hash, k, slot, prev, he, j := Locate(key, klen);
      i := slot;
      if he == null && val != Null {
        he := Enter(hash, k, slot, prev, val);
      }
      if he != null {
        InAll(chains, i, j);
        if val == Null {
          Delete(slot, prev, he, j);
        } else {
          Replace(he, val, i, j);
          if count > max {
            ExpandArray();
          }
        }
      }
    }

    /** `scl_hash_clear`: deletes each entry that the iteration is at. */
    method Clear()
      requires Valid()
      modifies this, slots, inner, EntriesOf(chains), recycled
      ensures Valid() && m == map[] && max == old(max) && Made() == old(Made())
    {
      ShapedParts();
      assert allocated(EntriesOf(chains)) && allocated(recycled);
      hide Shaped, EntriesOf, Flat, Skipped, Current, Pending, Emptied;
      var more;
      ghost var rest;
      more, rest := Begin(inner);
      if more {
        CurrentFirst(slots, chains, inner.cur, inner.next, inner.index, rest);
      }
      while more
        invariant Valid() && slots == old(slots) && max == old(max) && Made() == old(Made())
        invariant if more then Current(chains, inner.cur, inner.next, inner.index, rest) else Flat(chains) == []
        decreases count
      {
        more, rest := ClearNext(rest);
      }
      ShapedParts();
      NothingLeft(chains, hasher, max, m);
    }

    /** One round of `scl_hash_clear`. */
    method ClearNext(ghost rest: seq<Chain>) returns (more: bool, ghost after: seq<Chain>)
      requires Valid() && Current(chains, inner.cur, inner.next, inner.index, rest)
      modifies this, slots, inner, EntriesOf(chains), recycled
      ensures Valid() && slots == old(slots) && max == old(max) && Made() == old(Made()) && count < old(count)
      ensures if more then Current(chains, inner.cur, inner.next, inner.index, after) else Flat(chains) == []
    {
      hide Shaped, EntriesOf, Flat, Skipped, Current, Pending, Emptied;
      DeleteCurrent(rest);
      ShapedParts();
      AllAllocated();
      EmptiedPending(slots, chains, inner.next, inner.index, rest);
      ghost var next, index := inner.next, inner.index;
      more, after := Next(inner, rest);
      if more {
        CurrentNext(slots, chains, rest, inner.cur, next, inner.next, index, inner.index, after);
      }
    }

    method DeleteCurrent(ghost rest: seq<Chain>)
      requires Valid() && Current(chains, inner.cur, inner.next, inner.index, rest)
      modifies this, slots, inner, EntriesOf(chains), recycled
      ensures Valid() && slots == old(slots) && max == old(max) && Made() == old(Made()) && count < old(count)
      ensures Emptied(chains, inner.next, inner.index, rest)
    {
      ShapedParts();
      CurrentKey(chains, inner.cur, inner.next, inner.index, rest, hasher, max, m);
      hide Shaped, EntriesOf, Current, Emptied;
      ghost var before := chains;
      var e := inner.cur;
      assert Named(e.key, |e.key|) == e.key;
      FewerKeys(m, e.key);
      hide Named, Skipped;
      ghost var i, j := Set(e.key, |e.key|, Null);
      ShapedParts();
      CurrentDeleted(before, inner.cur, inner.next, inner.index, rest, chains);
    }

    /** Every entry made is live or recycled, and not both. */
    lemma AllAccountedFor()
      requires Valid()
      ensures |Made()| == count + |recycled|
    {
      hide EntriesOf, Owned, Buckets;
      FlatAll(chains, recycled, hasher, max, m);
      OwnedSize(chains, recycled);
    }

    lemma AllAllocated()
      ensures allocated(EntriesOf(chains)) && (forall e | e in recycled :: allocated(e))
    {
    }

    lemma ShapedParts()
      requires Shaped()
      ensures slots.Length == max + 1 == |chains| && Filed(slots, chains) && Buckets(chains, hasher, max, m) && count == |m|
    {
    }

    /** `scl_hash_first`. */
    method Begin(hi: Index) returns (more: bool, ghost rest: seq<Chain>)
      requires slots.Length == max + 1 && Filed(slots, chains)
      modifies hi
      ensures more ==> hi.cur != null && Flat(chains) == [hi.cur] + Flat(rest) && Pending(slots, hi.next, hi.index, rest)
      ensures more ==> Skipped([[]] + chains, hi.index, hi.cur, rest)
      ensures !more ==> Flat(chains) == []
    {
      hide Flat;
      hi.index, hi.cur, hi.next := 0, null, null;
      PendingAll(slots, chains);
      more, rest := Next(hi, [[]] + chains);
    }

    /** `scl_hash_next`. */
    method Next(hi: Index, ghost rest: seq<Chain>) returns (more: bool, ghost after: seq<Chain>)
      requires slots.Length == max + 1 && Pending(slots, hi.next, hi.index, rest)
      modifies hi
      ensures more ==> hi.cur != null && Flat(rest) == [hi.cur] + Flat(after) && Pending(slots, hi.next, hi.index, after)
      ensures more ==> old(hi.index) <= hi.index && Skipped(rest, hi.index - old(hi.index), hi.cur, after)
      ensures !more ==> Flat(rest) == []
    {
      hide Flat, Pending, EntriesOf, Passed, Skipped;
      more, after := Advance(hi, rest);
      if more {
        PendingNext(slots, hi.cur, hi.index, after);
        PassedDone(rest, hi.index - old(hi.index), after);
        hi.next := hi.cur.next;
        after := after[0 := after[0][1..]];
      }
    }

    /** The loop of `scl_hash_next`: on to the next chain that has an entry. */
    method Advance(hi: Index, ghost rest: seq<Chain>) returns (more: bool, ghost after: seq<Chain>)
      requires slots.Length == max + 1 && Pending(slots, hi.next, hi.index, rest)
      modifies hi
      ensures more ==> hi.cur != null && Flat(after) == Flat(rest) && Pending(slots, hi.cur, hi.index, after)
      ensures more ==> old(hi.index) <= hi.index && Passed(rest, hi.index - old(hi.index), after)
      ensures !more ==> Flat(rest) == []
    {
      hide Flat, Pending, EntriesOf, Passed;
      ghost var start := hi.index;
      PendingSome(slots, hi.next, hi.index, rest);
      PassedNone(rest);
      after := rest;
      hi.cur := hi.next;
      while hi.cur == null
        invariant Pending(slots, hi.cur, hi.index, after) && Flat(after) == Flat(rest)
        invariant start <= hi.index <= slots.Length && Passed(rest, hi.index - start, after)
        decreases slots.Length - hi.index
      {
        if hi.index > max {
          PendingEnd(slots, after);
          more := false;
          return;
        }
        PendingSlot(slots, hi.index, after);
        PassedMore(rest, hi.index - start, after);
        hi.cur, hi.index, after := slots[hi.index], hi.index + 1, after[1..];
      }
      more := true;
    }

    /** Files the current entry of the iteration; what the iteration has still to come to stays as it is. */
    method RefileCurrent(new_slots: array<Entry?>, ghost newer: seq<Chain>, ghost seen: Chain, ghost done: map<Key, Ptr>,
        ghost all: Chain, ghost rest: seq<Chain>, new_max: nat)
      returns (ghost newer': seq<Chain>, ghost seen': Chain, ghost done': map<Key, Ptr>)
      requires inner.cur != null && Pending(slots, inner.next, inner.index, rest) && new_slots != slots
      requires all == seen + [inner.cur] + Flat(rest) && Distinct(all) && Lists(all, m) && Hashed(all, hasher)
      requires Refiled(new_slots, newer, seen, done, hasher, new_max)
      requires Linked(recycled) && inner.cur !in recycled
      modifies new_slots, inner.cur`next
      ensures Pending(slots, inner.next, inner.index, rest) && seen' == seen + [inner.cur]
      ensures Refiled(new_slots, newer', seen', done', hasher, new_max)
      ensures Lists(all, m) && Hashed(all, hasher) && Linked(recycled)
    {
      hide Linked, EntriesOf, Flat, Lists, Hashed, Distinct, Pending, Refiled, And, HashOf;
      var e := inner.cur;
      OnlyOnce(all, seen, e, rest);
      HashIs(all, |seen|, hasher);
      RefiledLists(new_slots, newer, seen, done, hasher, new_max);
      ListsMore(seen, e, Flat(rest), done, m);
      assert allocated(EntriesOf(rest));
      newer' := Refile(new_slots, newer, seen, done, hasher, new_max, e);
      seen', done' := seen + [e], done[e.key := e.val];
    }

    /** The loop of `expand_array`: the entries are filed again while the iteration goes on over their old chains. */
    method FileAgain(new_slots: array<Entry?>, new_max: nat) returns (ghost newer: seq<Chain>)
      requires Shaped() && new_slots != slots && new_slots.Length == new_max + 1
      requires forall i | 0 <= i <= new_max :: new_slots[i] == null
      modifies new_slots, inner, EntriesOf(chains)`next
      ensures |newer| == new_max + 1 && Filed(new_slots, newer) && Buckets(newer, hasher, new_max, m)
      ensures Owned(newer, recycled) && EntriesOf(newer) == EntriesOf(chains) && Linked(recycled)
    {
      hide IsMask, Apart, Owned, Filed, Linked, First, Buckets, EntriesOf, Flat, Lists, Hashed, Distinct, Pending, Refiled;
      ghost var all := Flat(chains);
      FlatAll(chains, recycled, hasher, max, m);
      assert allocated(EntriesOf(chains)) && allocated(recycled) && allocated(all);
      ghost var seen: Chain, done: map<Key, Ptr> := [], map[];
      newer := seq(new_max + 1, _ => []);
      RefiledNone(new_slots, newer, hasher, new_max);
      var more;
      ghost var rest;
      more, rest := Begin(inner);
      while more
        invariant more ==> inner.cur != null && Pending(slots, inner.next, inner.index, rest)
        invariant all == seen + (if more then [inner.cur] + Flat(rest) else [])
        invariant Refiled(new_slots, newer, seen, done, hasher, new_max)
        invariant Lists(all, m) && Hashed(all, hasher) && Linked(recycled)
        decreases |all| - |seen|
      {
        assert all == seen + [inner.cur] + Flat(rest);
        assert inner.cur == all[|seen|];
        FlatOwned(chains, recycled, inner.cur);
        newer, seen, done := RefileCurrent(new_slots, newer, seen, done, all, rest, new_max);
        assert allocated(EntriesOf(newer)) && allocated(seen);
        more, rest := Next(inner, rest);
      }
      assert all == seen;
      RefiledAll(new_slots, newer, seen, done, hasher, new_max, m, chains, recycled);
    }

    /** `expand_array`. */
    method ExpandArray()
      requires Shaped()
      modifies this`slots, this`max, this`chains, inner, EntriesOf(chains)`next
      ensures Shaped() && max == 2 * old(max) + 1 && fresh(slots)
      ensures EntriesOf(chains) == old(EntriesOf(chains))
    {
      hide IsMask, Apart, Owned, Filed, Linked, First, Buckets, EntriesOf;
      var new_max := max * 2 + 1;
      MaskDoubles(max);
      assert allocated(EntriesOf(chains)) && allocated(recycled);
      var new_slots := new Entry?[new_max + 1](_ => null);
      ghost var newer := FileAgain(new_slots, new_max);
      slots, max, chains := new_slots, new_max, newer;
    }
  }

  lemma FewerKeys(m: map<Key, Ptr>, k: Key)
    requires k in m
    ensures |m - {k}| == |m| - 1
  {
    assert (m - {k}).Keys == m.Keys - {k};
  }

  function Updated(m: map<Key, Ptr>, k: Key, val: Ptr): map<Key, Ptr> { if val == Null then m - {k} else m[k := val] }
}
