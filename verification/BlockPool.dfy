/** The block pool: allocations are cut off blocks, and a block goes back when its last allocation is freed. */
module BlockPool {

  /** A block of memory at `buf`; its first `addr` bytes have been handed out. */
  class Block {
    const buf: int
    const size: nat
    const keep: bool
    var next: Block?
    var addr: nat
    var used: int
    /** The live allocations in this block, and their lengths. */
    ghost var mine: map<int, int>

    constructor (buf: int, size: nat, keep: bool, next: Block?)
      ensures this.buf == buf && this.size == size && this.keep == keep && this.next == next
      ensures addr == 0 && used == 0 && mine == map[]
    {
      this.buf, this.size, this.keep, this.next := buf, size, keep, next;
      addr, used, mine := 0, 0, map[];
    }
  }

  type Chain = seq<Block>

  function First(c: Chain): Block? { if |c| > 0 then c[0] else null }

  function After(c: Chain, j: nat): Block? { if j + 1 < |c| then c[j + 1] else null }

  ghost predicate Linked(c: Chain)
    reads c`next
  {
    forall j | 0 <= j < |c| :: c[j].next == After(c, j)
  }

  predicate NoRepeats(c: Chain) { forall j, k | 0 <= j < k < |c| :: c[j] != c[k] }

  /** The memory of two blocks does not overlap. */
  predicate Separate(b: Block, d: Block) { b.buf + b.size <= d.buf || d.buf + d.size <= b.buf }

  predicate AllSeparate(c: Chain) { forall j, k | 0 <= j < k < |c| :: Separate(c[j], c[k]) }

  /** Allocations lie side by side in what has been handed out of a block. */
  predicate Slices(buf: int, addr: nat, mine: map<int, int>) {
    && (forall p | p in mine :: mine[p] > 0 && buf <= p && p + mine[p] <= buf + addr)
    && forall p, q | p in mine && q in mine && p < q :: p + mine[p] <= q
  }

  /** `used` counts the live allocations, and there is room for no more than one in four bytes. */
  ghost predicate BlockOk(b: Block)
    reads b`addr, b`used, b`mine
  {
    b.addr <= b.size && b.used == |b.mine| && 4 * b.used <= b.addr && Slices(b.buf, b.addr, b.mine)
  }

  ghost function Consumed(c: Chain): int
    reads c`addr
  {
    if |c| == 0 then 0 else c[0].addr + Consumed(c[1..])
  }

  function Huge(c: Chain, block_size: nat): nat {
    if |c| == 0 then 0 else (if c[0].size > block_size then 1 else 0) + Huge(c[1..], block_size)
  }

  function Without(c: Chain, j: nat): (d: Chain)
    requires j < |c|
    ensures |d| == |c| - 1
  {
    c[..j] + c[j + 1..]
  }

  lemma {:induction false} ConsumedWithout(c: Chain, j: nat, block_size: nat)
    requires j < |c|
    ensures Consumed(Without(c, j)) == Consumed(c) - c[j].addr
    ensures Huge(Without(c, j), block_size) == Huge(c, block_size) - (if c[j].size > block_size then 1 else 0)
  {
    if j > 0 {
      ConsumedWithout(c[1..], j - 1, block_size);
      assert Without(c, j)[1..] == Without(c[1..], j - 1);
    } else {
      assert Without(c, 0) == c[1..];
    }
  }

  /** The chain's blocks and their accounts. */
  ghost predicate ChainOk(c: Chain, block_size: nat)
    reads c`next, c`addr, c`used, c`mine
  {
    Linked(c) && NoRepeats(c) && AllSeparate(c) && forall b | b in c :: BlockOk(b) && b.size >= block_size
  }

  ghost function Mines(c: Chain): (ms: seq<map<int, int>>)
    reads c`mine
    ensures |ms| == |c|
  {
    if |c| == 0 then [] else [c[0].mine] + Mines(c[1..])
  }

  lemma {:induction false} MinesAt(c: Chain, j: nat)
    requires j < |c|
    ensures Mines(c)[j] == c[j].mine
  {
    if j > 0 {
      MinesAt(c[1..], j - 1);
    }
  }

  /** An allocation that only one block has goes. */
  lemma {:induction false} TogetherLess(ms: seq<map<int, int>>, j: nat, p: int)
    requires j < |ms| && p in ms[j] && forall k | 0 <= k < |ms| && k != j :: p !in ms[k]
    ensures p in Together(ms) && Together(ms[j := ms[j] - {p}]) == Together(ms) - {p}
  {
    var less := ms[j := ms[j] - {p}];
    if j > 0 {
      assert less[1..] == ms[1..][j - 1 := ms[1..][j - 1] - {p}];
      TogetherLess(ms[1..], j - 1, p);
    } else {
      assert less[1..] == ms[1..];
      TogetherNot(ms[1..], p);
    }
  }

  lemma {:induction false} TogetherNot(ms: seq<map<int, int>>, p: int)
    requires forall k | 0 <= k < |ms| :: p !in ms[k]
    ensures p !in Together(ms)
  {
    if |ms| > 0 {
      TogetherNot(ms[1..], p);
    }
  }

  lemma {:induction false} TogetherWhere(ms: seq<map<int, int>>, p: int) returns (k: nat)
    requires p in Together(ms)
    ensures k < |ms| && p in ms[k]
  {
    if p in ms[0] {
      k := 0;
    } else {
      k := TogetherWhere(ms[1..], p);
      k := k + 1;
    }
  }

  /** A block without allocations may go. */
  lemma {:induction false} TogetherWithout(ms: seq<map<int, int>>, j: nat)
    requires j < |ms| && ms[j] == map[]
    ensures Together(ms[..j] + ms[j + 1..]) == Together(ms)
  {
    var less := ms[..j] + ms[j + 1..];
    if j > 0 {
      assert less[1..] == ms[1..][..j - 1] + ms[1..][j..];
      TogetherWithout(ms[1..], j - 1);
    } else {
      assert less == ms[1..];
    }
  }

  function Together(ms: seq<map<int, int>>): map<int, int> { if |ms| == 0 then map[] else Together(ms[1..]) + ms[0] }

  /** The live allocations of all blocks together. */
  ghost function LiveOf(c: Chain): map<int, int>
    reads c`mine
  {
    Together(Mines(c))
  }

  lemma LiveFirst(c: Chain)
    requires |c| > 0
    ensures LiveOf(c) == LiveOf(c[1..]) + c[0].mine
  {
    assert Mines(c)[1..] == Mines(c[1..]);
  }

  const PAGE := 4096

  /** What a block needs besides its memory. */
  const SIZEOF_DBUF := 40

  /** What a request takes: up to the next multiple of four, and four bytes for a multiple of four. */
  function Taken(length: nat): (n: nat)
    ensures length < n <= length + 4 && n % 4 == 0
  {
    length + (4 - length % 4)
  }

  /** A multiple of four that holds the request. */
  predicate Holds(n: nat, length: nat) { length <= n && n % 4 == 0 }

  /** It is the least one if and only if the request is not a multiple of four itself; four bytes take eight. */
  lemma TakenIsLeast(length: nat)
    ensures (Holds(Taken(length), length) && forall n: nat | Holds(n, length) :: Taken(length) <= n) <==> length % 4 != 0
    ensures length % 4 == 0 ==> Taken(length) == length + 4
    ensures Taken(4) == 8
  {
    if length % 4 == 0 {
      assert Holds(length, length);
    }
  }

  /** Whether `malloc` may give out `size` bytes at `at`. */
  predicate Vacant(c: Chain, at: int, size: nat) { forall b | b in c :: at + size <= b.buf || b.buf + b.size <= at }

  class Pool {
    const block_size: nat
    var off: int
    var huge: int
    var head: Block?
    ghost var chain: Chain

    ghost predicate Valid()
      reads this, chain
    {
      ChainOk(chain, block_size) && head == First(chain) && off == Consumed(chain) && huge == Huge(chain, block_size)
    }

    /** The live allocations and their lengths. */
    ghost function Live(): map<int, int>
      reads this, chain
    {
      LiveOf(chain)
    }

    /** `scl_dbuf_pool_create`; the first block is part of the pool and stays. */
    constructor (block_size: nat, at: int)
      ensures Valid() && Live() == map[] && off == 0 && huge == 0
      ensures |chain| == 1 && fresh(chain[0]) && chain[0].keep && chain[0].size == this.block_size
    {
      var size := block_size / PAGE * PAGE;
      if size < PAGE {
        size := PAGE;
      }
      size := size - (16 + SIZEOF_DBUF);
      var first := new Block(at, size, true, null);
      this.block_size := size;
      off, huge, head := 0, 0, first;
      chain := [first];
      OneBlock(first, size);
    }

    /** `scl_dbuf_alloc`: a new block in front of the others. */
    method NewBlock(length: nat, at: int) returns (dbuf: Block)
      requires Valid() && Vacant(chain, at, length) && length >= block_size
      modifies this
      ensures Valid() && fresh(dbuf) && dbuf.buf == at && dbuf.size == length && dbuf.addr == 0 && !dbuf.keep
      ensures chain == [dbuf] + old(chain) && Live() == old(Live()) && off == old(off)
    {
      hide ChainOk, LiveOf, Consumed, Huge, First, Vacant;
      dbuf := new Block(at, length, false, head);
      NewFront(dbuf, chain, block_size);
      head := dbuf;
      if length > block_size {
        huge := huge + 1;
      }
      chain := [dbuf] + chain;
    }

    /** Whether a request is served from the block in front. */
    ghost predicate HasRoom(length: nat)
      reads this, chain
    {
      Taken(length) <= block_size && |chain| > 0 && chain[0].addr + Taken(length) <= block_size
    }

    /** `scl_dbuf_pool_alloc`; `at` is where memory for a new block is, if one is needed. */
    method Alloc(length: nat, at: int) returns (ptr: int)
      requires Valid() && Vacant(chain, at, if Taken(length) > block_size then Taken(length) else block_size)
      modifies this, chain
      ensures Valid() && ptr !in old(Live()) && Live() == old(Live())[ptr := Taken(length)] && off == old(off) + Taken(length)
      ensures old(HasRoom(length)) ==> chain == old(chain) && ptr == old(chain[0].buf + chain[0].addr)
      ensures !old(HasRoom(length)) ==>
        && |chain| == |old(chain)| + 1 && chain[1..] == old(chain) && fresh(chain[0])
        && chain[0].buf == ptr == at && !chain[0].keep && chain[0].size == if Taken(length) > block_size then Taken(length) else block_size
    {
      hide ChainOk, LiveOf, Consumed, Huge, Vacant;
      var n := length + (4 - length % 4);
      var dbuf;
      if n > block_size {
        dbuf := NewBlock(n, at);
      } else if head == null {
        dbuf := NewBlock(block_size, at);
      } else if block_size < head.addr + n {
        dbuf := NewBlock(block_size, at);
      } else {
        HeadFits(chain, block_size);
        dbuf := head;
      }
      ptr := Carve(dbuf, n);
    }

    /** `scl_dbuf_pool_free`: finds the block by its address, and gives it back when nothing of it is live. */
    method Free(ptr: int) returns (r: int, ghost j: nat)
      requires Valid() && forall b | b in chain && b.buf <= ptr < b.buf + b.addr :: ptr in b.mine
      modifies this, chain
      ensures Valid() && r in {-1, 0, 1} && (r == -1 <==> ptr !in old(Live()))
      ensures Live() == old(Live()) - {ptr}
      ensures r == -1 ==> chain == old(chain)
      ensures r != -1 ==> j < |old(chain)| && ptr in old(chain[j].mine)
      ensures r != -1 ==> (r == 1 <==> !old(chain)[j].keep && |old(chain[j].mine)| == 1)
      ensures r != -1 ==> chain == if r == 1 then Without(old(chain), j) else old(chain)
    {
      hide LiveOf, ChainOk, Consumed, Huge, Without;
      var iter, prev;
      iter, prev, j := Find(ptr);
      if iter == null {
        return -1, j;
      }
      Drop(iter, ptr, j);
      if iter.used > 0 || iter.keep {
        return 0, j;
      }
      Release(iter, prev, j);
      return 1, j;
    }

    /** The loop of `scl_dbuf_pool_free`. */
    method Find(ptr: int) returns (iter: Block?, prev: Block?, ghost j: nat)
      requires Valid() && forall b | b in chain && b.buf <= ptr < b.buf + b.addr :: ptr in b.mine
      ensures j <= |chain| && iter == (if j < |chain| then chain[j] else null) && prev == if j == 0 then head else chain[j - 1]
      ensures iter != null ==> ptr in iter.mine
      ensures iter == null ==> ptr !in Live()
    {
      hide LiveOf, ChainOk, Consumed, Huge;
      LinksOf(chain, block_size);
      iter, prev := head, head;
      j := 0;
      while iter != null
        invariant j <= |chain| && iter == (if j < |chain| then chain[j] else null)
        invariant prev == if j == 0 then head else chain[j - 1]
        invariant forall l | 0 <= l < j :: ptr !in chain[l].mine
        decreases |chain| - j
      {
        NextIs(chain, block_size, j);
        if ptr < iter.buf + iter.addr && ptr >= iter.buf {
          break;
        }
        prev, iter, j := iter, iter.next, j + 1;
      }
      if iter == null {
        NotLive(chain, ptr);
      }
    }

    /** Counts one allocation of the block less. */
    method Drop(iter: Block, ghost ptr: int, ghost j: nat)
      requires Valid() && j < |chain| && iter == chain[j] && ptr in iter.mine
      modifies iter`used, iter`mine
      ensures Valid() && Live() == old(Live()) - {ptr} && ptr in old(Live()) && iter.mine == old(iter.mine) - {ptr} && iter.used == |iter.mine|
    {
      ghost var ms := Mines(chain);
      MinesApart(chain, block_size, j, ptr);
      TogetherLess(ms, j, ptr);
      hide ChainOk, Huge, Consumed, Mines, Together, First;
      DropIn(chain, block_size, iter, ptr);
      MinesUpdated(chain, j, ms);
    }

    /** Gives a block without live allocations back to the system. */
    method Release(iter: Block, prev: Block?, ghost j: nat)
      requires Valid() && j < |chain| && iter == chain[j] && iter.mine == map[] && prev == (if j == 0 then head else chain[j - 1])
      modifies this, chain
      ensures Valid() && chain == Without(old(chain), j) && Live() == old(Live())
    {
      hide ChainOk, LiveOf, Consumed, Huge, Without, First;
      ghost var after := Without(chain, j);
      ReleasedAccounts(chain, block_size, j);
      ghost var lives, sum := LiveOf(after), Consumed(after);
      Unlink(iter, prev, j);
      assert LiveOf(after) == lives && Consumed(after) == sum;
      off := off - iter.addr;
      if iter.size > block_size {
        huge := huge - 1;
      }
      chain := after;
    }

    /** Links the block out. */
    method Unlink(iter: Block, prev: Block?, ghost j: nat)
      requires ChainOk(chain, block_size) && head == First(chain)
      requires j < |chain| && iter == chain[j] && prev == (if j == 0 then head else chain[j - 1])
      modifies this`head, chain`next
      ensures ChainOk(Without(chain, j), block_size) && head == First(Without(chain, j))
    {
      ghost var after := Without(chain, j);
      WithoutOk(chain, block_size, j);
      NextIs(chain, block_size, j);
      hide After, First, Without, NoRepeats, AllSeparate, BlockOk;
      if iter == head {
        head := iter.next;
      } else {
        prev.next := iter.next;
      }
      forall k | 0 <= k < |after| ensures after[k].next == After(after, k) {
        WithoutNext(chain, j, k);
      }
    }

    /** The end of `scl_dbuf_pool_alloc`: cuts an allocation off the first block. */
    method Carve(dbuf: Block, n: nat) returns (ptr: int)
      requires Valid() && head == dbuf && dbuf.addr + n <= dbuf.size && n >= 4
      modifies this`off, dbuf`addr, dbuf`used, dbuf`mine
      ensures Valid() && ptr !in old(Live()) && Live() == old(Live())[ptr := n] && off == old(off) + n
      ensures ptr == old(dbuf.buf + dbuf.addr)
    {
      hide Linked, NoRepeats, AllSeparate, BlockOk, Huge, Consumed, LiveOf;
      ghost var rest, mine := chain[1..], dbuf.mine;
      FirstApart(chain);
      CarvedIsNew(chain, block_size, dbuf.buf + dbuf.addr);
      Heads(chain);
      assert forall b | b in rest :: b in chain;
      ptr := CutOff(dbuf, n);
      off := off + n;
      Heads(chain);
      assert LiveOf(rest) + mine[ptr := n] == (LiveOf(rest) + mine)[ptr := n];
    }
  }

  method CutOff(dbuf: Block, n: nat) returns (ptr: int)
    requires BlockOk(dbuf) && dbuf.addr + n <= dbuf.size && n >= 4
    modifies dbuf`addr, dbuf`used, dbuf`mine
    ensures BlockOk(dbuf) && ptr == old(dbuf.buf + dbuf.addr) && dbuf.addr == old(dbuf.addr) + n && dbuf.mine == old(dbuf.mine)[ptr := n]
  {
    hide Slices;
    ptr := dbuf.buf + dbuf.addr;
    SlicesMore(dbuf.buf, dbuf.addr, dbuf.mine, n);
    dbuf.addr := dbuf.addr + n;
    dbuf.used := dbuf.used + 1;
    dbuf.mine := dbuf.mine[ptr := n];
  }

  lemma SlicesMore(buf: int, addr: nat, mine: map<int, int>, n: nat)
    requires Slices(buf, addr, mine) && n > 0
    ensures buf + addr !in mine && Slices(buf, addr + n, mine[buf + addr := n]) && |mine[buf + addr := n]| == |mine| + 1
  {
    assert mine[buf + addr := n].Keys == mine.Keys + {buf + addr};
  }

  lemma OneBlock(b: Block, block_size: nat)
    requires b.next == null && b.addr == 0 && b.used == 0 && b.mine == map[] && b.size == block_size
    ensures ChainOk([b], block_size) && First([b]) == b && Consumed([b]) == 0 && Huge([b], block_size) == 0 && LiveOf([b]) == map[]
  {
    assert [b][1..] == [];
    LiveFirst([b]);
    assert Huge([], block_size) == 0 && Consumed([]) == 0 && LiveOf([]) == map[];
  }

  lemma Heads(c: Chain)
    requires |c| > 0
    ensures Consumed(c) == c[0].addr + Consumed(c[1..]) && LiveOf(c) == LiveOf(c[1..]) + c[0].mine
  {
    LiveFirst(c);
  }

  lemma FirstApart(c: Chain)
    requires NoRepeats(c) && |c| > 0
    ensures c == [c[0]] + c[1..] && c[0] !in c[1..] && c[0] in c && forall b | b in c :: b == c[0] || b in c[1..]
  {
  }

  lemma LiveWhere(c: Chain, p: int) returns (j: nat)
    requires p in LiveOf(c)
    ensures j < |c| && p in c[j].mine
  {
    j := TogetherWhere(Mines(c), p);
    MinesAt(c, j);
  }

  /** The place that is cut off next is not live. */
  lemma CarvedIsNew(c: Chain, block_size: nat, ptr: int)
    requires ChainOk(c, block_size) && |c| > 0 && c[0].addr < c[0].size && ptr == c[0].buf + c[0].addr
    ensures ptr !in LiveOf(c)
  {
    if ptr in LiveOf(c) {
      var j := LiveWhere(c, ptr);
      NotCarved(c, block_size, j, ptr);
    }
  }

  lemma NotCarved(c: Chain, block_size: nat, j: nat, p: int)
    requires ChainOk(c, block_size) && j < |c| && p in c[j].mine && c[0].addr < c[0].size
    ensures p != c[0].buf + c[0].addr
  {
    assert BlockOk(c[j]) && BlockOk(c[0]) && (j > 0 ==> Separate(c[0], c[j]));
  }

  lemma HeadFits(c: Chain, block_size: nat)
    requires ChainOk(c, block_size) && |c| > 0
    ensures c[0].size >= block_size && c[0] in c
  {
  }

  lemma NewFront(b: Block, c: Chain, block_size: nat)
    requires ChainOk(c, block_size) && b !in c && b.next == First(c) && b.addr == 0 && b.used == 0 && b.mine == map[]
    requires Vacant(c, b.buf, b.size) && b.size >= block_size
    ensures ChainOk([b] + c, block_size) && LiveOf([b] + c) == LiveOf(c) && First([b] + c) == b
    ensures Consumed([b] + c) == Consumed(c) && Huge([b] + c, block_size) == Huge(c, block_size) + (if b.size > block_size then 1 else 0)
  {
    var d := [b] + c;
    assert d[1..] == c;
    FrontLinked(b, c);
    LiveFirst(d);
    assert LiveOf(d) == LiveOf(c);
    hide Linked, NoRepeats, AllSeparate;
    forall x | x in d ensures BlockOk(x) && x.size >= block_size {
      assert x == b || x in c;
    }
  }

  lemma FrontLinked(b: Block, c: Chain)
    requires Linked(c) && NoRepeats(c) && AllSeparate(c) && b !in c && b.next == First(c) && Vacant(c, b.buf, b.size)
    ensures Linked([b] + c) && NoRepeats([b] + c) && AllSeparate([b] + c)
  {
    var d := [b] + c;
    forall j | 0 <= j < |d| ensures d[j].next == After(d, j) {
      assert j > 0 ==> d[j] == c[j - 1] && After(d, j) == After(c, j - 1);
    }
    forall j, k | 0 <= j < k < |d| ensures Separate(d[j], d[k]) && d[j] != d[k] {
      assert d[k] == c[k - 1] && d[k] in c;
      assert j > 0 ==> d[j] == c[j - 1];
    }
  }

  lemma NotLive(c: Chain, p: int)
    requires forall j | 0 <= j < |c| :: p !in c[j].mine
    ensures p !in LiveOf(c)
  {
    if p in LiveOf(c) {
      var j := LiveWhere(c, p);
    }
  }

  lemma LinksOf(c: Chain, block_size: nat)
    requires ChainOk(c, block_size)
    ensures First(c) == if |c| > 0 then c[0] else null
  {
  }

  lemma NextIs(c: Chain, block_size: nat, j: nat)
    requires ChainOk(c, block_size) && j < |c|
    ensures c[j].next == (if j + 1 < |c| then c[j + 1] else null) && c[j] in c
    ensures forall p | p in c[j].mine :: c[j].buf <= p < c[j].buf + c[j].addr
    ensures c[0] == c[j] ==> j == 0
  {
    assert BlockOk(c[j]);
  }

  /** No allocation is in two blocks. */
  lemma OnlyIn(c: Chain, block_size: nat, j: nat, k: nat, p: int)
    requires ChainOk(c, block_size) && j < |c| && k < |c| && j != k && p in c[j].mine
    ensures p !in c[k].mine && c[j] != c[k]
  {
    assert BlockOk(c[j]) && BlockOk(c[k]) && Separate(c[if j < k then j else k], c[if j < k then k else j]);
  }

  lemma MinesApart(c: Chain, block_size: nat, j: nat, p: int)
    requires ChainOk(c, block_size) && j < |c| && p in c[j].mine
    ensures BlockOk(c[j])
    ensures forall k | 0 <= k < |c| :: Mines(c)[k] == c[k].mine && (k != j ==> p !in Mines(c)[k] && c[k] != c[j])
  {
    forall k | 0 <= k < |c| ensures Mines(c)[k] == c[k].mine && (k != j ==> p !in Mines(c)[k] && c[k] != c[j]) {
      MinesAt(c, k);
      if k != j {
        OnlyIn(c, block_size, j, k, p);
      }
    }
  }

  lemma MinesUpdated(c: Chain, j: nat, ms: seq<map<int, int>>)
    requires |ms| == |c| && j < |c| && forall k | 0 <= k < |c| && k != j :: c[k].mine == ms[k]
    ensures Mines(c) == ms[j := c[j].mine]
  {
    forall k | 0 <= k < |c| ensures Mines(c)[k] == c[k].mine {
      MinesAt(c, k);
    }
  }

  method DropIn(ghost c: Chain, ghost block_size: nat, b: Block, ghost p: int)
    requires ChainOk(c, block_size) && b in c && p in b.mine
    modifies b`used, b`mine
    ensures ChainOk(c, block_size) && b.mine == old(b.mine) - {p} && b.used == |b.mine|
  {
    hide Linked, NoRepeats, AllSeparate, BlockOk;
    DropSlice(b, p);
  }

  method DropSlice(b: Block, ghost p: int)
    requires BlockOk(b) && p in b.mine
    modifies b`used, b`mine
    ensures BlockOk(b) && b.mine == old(b.mine) - {p} && b.used == |b.mine|
  {
    assert (b.mine - {p}).Keys == b.mine.Keys - {p};
    b.used := b.used - 1;
    b.mine := b.mine - {p};
  }

  lemma ReleasedAccounts(c: Chain, block_size: nat, j: nat)
    requires j < |c| && c[j].mine == map[]
    ensures LiveOf(Without(c, j)) == LiveOf(c) && forall b | b in Without(c, j) :: b in c
    ensures Consumed(Without(c, j)) == Consumed(c) - c[j].addr
    ensures Huge(Without(c, j), block_size) == Huge(c, block_size) - (if c[j].size > block_size then 1 else 0)
  {
    ConsumedWithout(c, j, block_size);
    MinesAt(c, j);
    TogetherWithout(Mines(c), j);
    var d := Without(c, j);
    forall k | 0 <= k < |d| ensures Mines(d)[k] == (Mines(c)[..j] + Mines(c)[j + 1..])[k] {
      MinesAt(d, k);
      MinesAt(c, if k < j then k else k + 1);
    }
    assert Mines(d) == Mines(c)[..j] + Mines(c)[j + 1..];
  }

  lemma WithoutOk(c: Chain, block_size: nat, j: nat)
    requires ChainOk(c, block_size) && j < |c|
    ensures NoRepeats(Without(c, j)) && AllSeparate(Without(c, j)) && c[j] !in Without(c, j)
    ensures forall b | b in Without(c, j) :: b in c && BlockOk(b) && b.size >= block_size
    ensures First(c) == c[0] && First(Without(c, j)) == if j == 0 then After(c, 0) else c[0]
  {
    var d := Without(c, j);
    forall k | 0 <= k < |d| ensures d[k] == c[if k < j then k else k + 1] {}
  }

  lemma WithoutNext(c: Chain, j: nat, k: nat)
    requires j < |c| && k + 1 < |c|
    ensures var d := Without(c, j);
      && (k < j ==> d[k] == c[k])
      && (k + 1 < j ==> After(d, k) == After(c, k))
      && (k + 1 == j ==> After(d, k) == After(c, j))
      && (k >= j ==> d[k] == c[k + 1] && After(d, k) == After(c, k + 1))
  {
  }

  /** Live allocations lie in the blocks of the chain, and do not overlap. */
  lemma LiveApart(pool: Pool, p: int, q: int)
    requires pool.Valid() && p in pool.Live() && q in pool.Live() && p < q
    ensures p + pool.Live()[p] <= q
    ensures exists b :: b in pool.chain && b.buf <= p && p + pool.Live()[p] <= b.buf + b.addr <= b.buf + b.size
  {
    hide ChainOk, LiveOf;
    var j := LiveWhere(pool.chain, p);
    var k := LiveWhere(pool.chain, q);
    LiveLength(pool.chain, pool.block_size, j, p);
    BlocksApart(pool.chain, pool.block_size, j, k, p, q);
  }

  lemma BlocksApart(c: Chain, block_size: nat, j: nat, k: nat, p: int, q: int)
    requires ChainOk(c, block_size) && j < |c| && k < |c| && p in c[j].mine && q in c[k].mine && p < q
    ensures p + c[j].mine[p] <= q
    ensures c[j] in c && c[j].buf <= p && p + c[j].mine[p] <= c[j].buf + c[j].addr <= c[j].buf + c[j].size
  {
    assert c[j] in c && c[k] in c && BlockOk(c[j]) && BlockOk(c[k]);
    InSlice(c[j], p);
    InSlice(c[k], q);
    hide Linked, NoRepeats, BlockOk;
    if j == k {
      SliceOrder(c[j], p, q);
    } else {
      assert Separate(c[if j < k then j else k], c[if j < k then k else j]);
    }
  }

  lemma InSlice(b: Block, p: int)
    requires BlockOk(b) && p in b.mine
    ensures b.mine[p] > 0 && b.buf <= p && p + b.mine[p] <= b.buf + b.addr <= b.buf + b.size
  {
  }

  lemma SliceOrder(b: Block, p: int, q: int)
    requires BlockOk(b) && p in b.mine && q in b.mine && p < q
    ensures p + b.mine[p] <= q
  {
    InOrder(b.buf, b.addr, b.mine, p, q);
  }

  lemma InOrder(buf: int, addr: nat, mine: map<int, int>, p: int, q: int)
    requires Slices(buf, addr, mine) && p in mine && q in mine && p < q
    ensures p + mine[p] <= q
  {
  }

  lemma LiveLength(c: Chain, block_size: nat, j: nat, p: int)
    requires ChainOk(c, block_size) && j < |c| && p in c[j].mine
    ensures p in LiveOf(c) && LiveOf(c)[p] == c[j].mine[p]
  {
    MinesApart(c, block_size, j, p);
    TogetherValue(Mines(c), j, p);
  }

  lemma {:induction false} TogetherValue(ms: seq<map<int, int>>, j: nat, p: int)
    requires j < |ms| && p in ms[j] && forall k | 0 <= k < |ms| && k != j :: p !in ms[k]
    ensures p in Together(ms) && Together(ms)[p] == ms[j][p]
  {
    if j > 0 {
      TogetherValue(ms[1..], j - 1, p);
    }
  }

  /** The counter of a block that is not too large stays within a `short`. */
  lemma UsedFits(pool: Pool, b: Block)
    requires pool.Valid() && b in pool.chain && b.size < 4 * 0x8000
    ensures 0 <= b.used <= 0x7fff
  {
  }
}
