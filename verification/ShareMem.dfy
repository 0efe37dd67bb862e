/** The shared-memory allocator: lists of free chunks by size, refilled from the end of the arena. */
module ShareMem {
  import opened ShareTiles

  /** How many chunks of a size are cut off at once, when `left` bytes are left. */
  function Stock(left: int, size: int, wanted: nat): int
    requires size > 0
  {
    if left >= size * wanted then wanted else left / size
  }

  /** The first chunk of list `i` is taken. */
  predicate Popped(lists: seq<seq<int>>, after: seq<seq<int>>, chunk: int, i: int) {
    0 <= i < |lists| && |lists[i]| > 0 && chunk == lists[i][0] && after == lists[i := lists[i][1..]]
  }

  /** Up to twenty chunks are cut off the arena; the first is taken, the others are list `i`. */
  predicate Restocked(lists: seq<seq<int>>, after: seq<seq<int>>, start: int, start': int, end: int, chunk: int, size: int, i: int) {
    && 0 <= i < |lists| && lists[i] == [] && 0 < size <= end - start
    && var n := Stock(end - start, size, 20);
    && 0 < n <= 20 && chunk == start && start' == Place(start, size, n)
    && after == lists[i := NewList(start, size, n)]
  }

  class CShareMemPool {
    /** Where the arena begins, behind the pool's own fields. */
    const base: int
    /** The first cell of each chunk has its header, or the link if the chunk is free. */
    const mem: array<int>
    const free_list: array<int>
    var start_free: int
    const end_free: int
    ghost var tiles: seq<Tile>
    ghost var lists: seq<seq<int>>
    /** The live chunks and their sizes. */
    ghost var live: map<int, int>

    ghost predicate Framed()
      reads this`start_free
    {
      && mem != free_list
      && base > 0 && base % ALIGN == 0 && start_free % ALIGN == 0 && base <= start_free <= end_free == base + ALIGN * mem.Length
    }

    ghost predicate Valid()
      reads this, mem, free_list
    {
      Framed() && Parted(mem[..], free_list[..], lists, tiles, live, base, start_free)
    }

    /** `ShareCreateMempool`, when the system has mapped the memory at `share_mem_start`; `own` is the size of the pool's fields. */
    constructor (share_mem_start: int, memsize: nat, own: nat)
      requires share_mem_start > 0 && share_mem_start % ALIGN == 0
      ensures Valid() && live == map[] && tiles == [] && fresh(mem) && fresh(free_list)
      ensures end_free - base == RoundUp(RoundUp(memsize) + HEAD) && start_free == base == share_mem_start + RoundUp(own)
      ensures lists == seq(SHARE_NFREELISTS, _ => [])
    {
      var user_size := RoundUp(memsize);
      var total_size := RoundUp(user_size + HEAD) + RoundUp(own);
      base := share_mem_start + RoundUp(own);
      start_free := share_mem_start + RoundUp(own);
      end_free := share_mem_start + total_size;
      mem := new int[RoundUp(user_size + HEAD) / ALIGN](_ => 0);
      free_list := new int[SHARE_NFREELISTS](_ => 0);
      tiles, lists, live := [], seq(SHARE_NFREELISTS, _ => []), map[];
    }

    /** `ShareDeAllocate`. */
    method DeAllocate(p: int)
      requires Valid() && p - HEAD in live
      modifies this`lists, this`live, mem, free_list
      ensures Valid() && live == old(live) - {p - HEAD}
      ensures var i := ListOf(old(live)[p - HEAD]); 0 <= i < |old(lists)| && lists == old(lists)[i := [p - HEAD] + old(lists)[i]]
    {
      var cp := p - HEAD;
      Given(mem[..], free_list[..], lists, tiles, live, base, start_free, cp);
      var s := mem[Cell(base, cp)];
      var i := FreelistIndex(s);
      assert i == ListOf(s);
      lists := lists[i := [cp] + lists[i]];
      live := live - {cp};
      mem[Cell(base, cp)] := free_list[i];
      free_list[i] := cp;
    }

    /** Whether a request of up to `SHARE_MAX_BYTES - HEAD` bytes finds its list empty, and the arena with less than one chunk but not used up. */
    ghost predicate Exhausts(n: nat)
      reads this, free_list
    {
      var size := RoundUp(n + HEAD);
      n <= SHARE_MAX_BYTES - HEAD && free_list.Length == SHARE_NFREELISTS && free_list[ListOf(size)] == 0 && 0 < end_free - start_free < size
    }

    /** Whether any chunks and lists at all fit what is in memory. */
    ghost predicate CanBeParted()
      reads this, mem, free_list
    {
      exists lists', tiles', live' :: Parted(mem[..], free_list[..], lists', tiles', live', base, start_free)
    }

    /** `ShareChunkAlloc`: the next `nobjs` chunks of the arena, or as many as there are. */
    method ChunkAlloc(size: int, wanted: nat) returns (result: int, nobjs: nat)
      requires Framed() && free_list.Length == SHARE_NFREELISTS && GoodSize(size) && wanted > 0
      modifies this`start_free, mem, free_list
      ensures Framed()
      ensures old(end_free - start_free) >= size ==>
        && result == old(start_free) && 0 < nobjs <= wanted && start_free == Place(result, size, nobjs)
        && nobjs == Stock(old(end_free - start_free), size, wanted)
        && mem[..] == old(mem[..]) && free_list[..] == old(free_list[..])
      ensures old(end_free - start_free) < size ==> result == 0 && nobjs == 0 && start_free == old(start_free)
      ensures old(end_free - start_free) == 0 ==> mem[..] == old(mem[..]) && free_list[..] == old(free_list[..])
      ensures 0 < old(end_free - start_free) < size ==> free_list[ListOf(end_free - start_free)] == start_free
    {
      hide Place;
      var total_bytes := size * wanted;
      var bytes_left := end_free - start_free;
      Steps(start_free, size, wanted);
      if bytes_left >= total_bytes {
        nobjs := wanted;
        result := start_free;
        start_free := start_free + total_bytes;
      } else if bytes_left >= size {
        nobjs := bytes_left / size;
        AtMost(bytes_left, size, wanted);
        total_bytes := size * nobjs;
        result := start_free;
        Steps(start_free, size, nobjs);
        start_free := start_free + total_bytes;
      } else {
        result, nobjs := 0, 0;
        if bytes_left > 0 {
          FileTail(bytes_left);
        }
      }
    }

    /** The loop of `ShareRefill`: links the chunks of a new stock, but for the first. */
    method Link(ghost before: seq<int>, chunk: int, size: int, nobjs: nat)
      requires Framed() && before == mem[..] && GoodSize(size) && nobjs > 1
      requires base <= chunk && (chunk - base) % ALIGN == 0 && Place(chunk, size, nobjs) <= base + ALIGN * mem.Length
      modifies mem
      ensures Linked(before, mem[..], base, chunk, size, nobjs)
    {
      hide Place;
      FirstPlace(chunk, size);
      NextPlace(chunk, size, 0);
      var next_obj := chunk + size;
      var i := 1;
      while true
        invariant 1 <= i < nobjs && next_obj == Place(chunk, size, i)
        invariant LinkedUpTo(before, mem[..], base, chunk, size, i)
        decreases nobjs - i
      {
        var current_obj := next_obj;
        NextPlace(chunk, size, i);
        PlaceFits(base, chunk, size, i, nobjs, mem.Length);
        next_obj := next_obj + size;
        LinkOne(before, mem[..], base, chunk, size, i, if nobjs - 1 == i then 0 else next_obj);
        if nobjs - 1 == i {
          mem[Cell(base, current_obj)] := 0;
          break;
        }
        mem[Cell(base, current_obj)] := next_obj;
        i := i + 1;
      }
      AllLinked(before, mem[..], base, chunk, size, nobjs);
    }

    /** `ShareRefill`: a new stock of chunks; all but the first one go to the list, which was empty. */
    method Refill(size: int, ghost i: int) returns (chunk: int, ghost nobjs: nat)
      requires 0 <= i < free_list.Length && free_list[i] == 0 && size > 0
      requires Valid() && GoodSize(size) && i == ListOf(size)
      modifies this`start_free, mem, free_list
      ensures Framed()
      ensures old(end_free - start_free) >= size ==>
        && chunk == old(start_free) && 0 < nobjs <= 20 && start_free == Place(chunk, size, nobjs)
        && nobjs == Stock(old(end_free - start_free), size, 20)
        && Linked(old(mem[..]), mem[..], base, chunk, size, nobjs)
        && free_list[..] == old(free_list[..])[i := HeadOf(NewList(chunk, size, nobjs))]
      ensures old(end_free - start_free) < size ==> chunk == 0 && nobjs == 0 && start_free == old(start_free)
      ensures old(end_free - start_free) == 0 ==> mem[..] == old(mem[..]) && free_list[..] == old(free_list[..])
      ensures 0 < old(end_free - start_free) < size ==> free_list[ListOf(end_free - start_free)] == start_free
    {
      hide Parted, Place, Linked, NewList, Framed, GoodSize, HeadOf, FreelistIndex, ListOf, Stock;
      ValidLists();
      FramedParts();
      SizeFits(size);
      ghost var before, start, heads := mem[..], start_free, free_list[..];
      assert heads[i := 0] == heads;
      var n;
      chunk, n := ChunkAlloc(size, 20);
      FramedParts();
      nobjs := n;
      if n == 1 {
        OneLinked(before, base, start, size);
      } else if n > 1 {
        StartList(before, chunk, size, n);
      }
    }

    /** The list begins with the second chunk of the stock. */
    method StartList(ghost before: seq<int>, chunk: int, size: int, nobjs: nat)
      requires Framed() && before == mem[..] && GoodSize(size) && nobjs > 1 && free_list.Length == SHARE_NFREELISTS
      requires base <= chunk && (chunk - base) % ALIGN == 0 && Place(chunk, size, nobjs) <= base + ALIGN * mem.Length
      modifies mem, free_list
      ensures Linked(before, mem[..], base, chunk, size, nobjs)
      ensures free_list[..] == old(free_list[..])[ListOf(size) := HeadOf(NewList(chunk, size, nobjs))]
    {
      hide Linked, NewList, Place;
      NewListHead(chunk, size, nobjs);
      free_list[FreelistIndex(size)] := chunk + size;
      Link(before, chunk, size, nobjs);
    }

    lemma FramedParts()
      requires Framed()
      ensures 0 < base <= start_free <= end_free == base + ALIGN * mem.Length && (start_free - base) % ALIGN == 0 && (end_free - start_free) % ALIGN == 0
    {
    }

    lemma ValidLists()
      requires Valid()
      ensures free_list.Length == SHARE_NFREELISTS
      ensures forall i | 0 <= i < SHARE_NFREELISTS :: |lists| == SHARE_NFREELISTS && (free_list[i] == 0 <==> lists[i] == [])
    {
      forall i | 0 <= i < SHARE_NFREELISTS ensures free_list[i] == 0 <==> lists[i] == [] {
        NoHead(mem[..], free_list[..], lists, tiles, live, base, start_free, i);
      }
    }

    /** `ShareAllocate`; the result 0 stands for NULL. */
    method Allocate(n: nat) returns (p: int)
      requires Valid() && (n <= SHARE_MAX_BYTES - HEAD || n > SHARE_MAX_BYTES)
      modifies this, mem, free_list
      ensures !old(Exhausts(n)) ==> Valid()
      ensures old(Exhausts(n)) ==> !CanBeParted()
      ensures p == 0 ==> live == old(live) && start_free == old(start_free)
      ensures p != 0 ==>
        && p - HEAD !in old(live) && live == old(live)[p - HEAD := RoundUp(n + HEAD)] && Tile(p - HEAD, RoundUp(n + HEAD)) in tiles
      ensures p != 0 <==> n <= SHARE_MAX_BYTES && old(free_list[ListOf(RoundUp(n + HEAD))] != 0 || end_free - start_free >= RoundUp(n + HEAD))
      ensures old(tiles) <= tiles
      ensures p != 0 ==> var size, i := RoundUp(n + HEAD), ListOf(RoundUp(n + HEAD));
        if old(free_list[i]) != 0 then start_free == old(start_free) && Popped(old(lists), lists, p - HEAD, i)
        else Restocked(old(lists), lists, old(start_free), start_free, end_free, p - HEAD, size, i)
    {
      hide Parted, CanBeParted, RoundUp, GoodSize;
      if n > SHARE_MAX_BYTES {
        return 0;
      }
      ValidLists();
      var size := RoundUp(n + HEAD);
      var i := FreelistIndex(size);
      SizeOfRequest(n);
      if free_list[i] == 0 {
        p := TakeNew(size, i);
      } else {
        var head := TakeFree(size, i);
        p := head + HEAD;
      }
    }

    /** The part of `ShareAllocate` for a list that has a chunk. */
    method TakeFree(size: int, i: int) returns (result: int)
      requires Valid() && 0 <= i < SHARE_NFREELISTS && size == ALIGN * (i + 1) && free_list[i] != 0
      modifies this`lists, this`live, mem, free_list
      ensures Valid() && result > 0 && result !in old(live) && live == old(live)[result := size] && Tile(result, size) in tiles
      ensures Popped(old(lists), lists, result, i) && start_free == old(start_free)
    {
      ValidLists();
      FramedParts();
      Taken(mem[..], free_list[..], lists, tiles, live, base, start_free, i);
      hide Parted, Framed, Tiled;
      result := free_list[i];
      lists := lists[i := lists[i][1..]];
      live := live[result := size];
      free_list[i] := mem[Cell(base, result)];
      mem[Cell(base, result)] := size;
    }

    /** The part of `ShareAllocate` for a list that is empty. */
    method TakeNew(size: int, i: int) returns (p: int)
      requires Valid() && 0 <= i < SHARE_NFREELISTS && GoodSize(size) && size == ALIGN * (i + 1) && free_list[i] == 0
      modifies this, mem, free_list
      ensures old(end_free - start_free) >= size ==>
        && Valid() && p > HEAD && p - HEAD !in old(live) && live == old(live)[p - HEAD := size] && Tile(p - HEAD, size) in tiles
        && Restocked(old(lists), lists, old(start_free), start_free, end_free, p - HEAD, size, i)
      ensures old(end_free - start_free) < size ==> p == 0 && live == old(live) && start_free == old(start_free)
      ensures old(end_free - start_free) == 0 ==> Valid()
      ensures 0 < old(end_free - start_free) < size ==> !CanBeParted()
      ensures old(tiles) <= tiles
    {
      hide Parted, Linked, CanBeParted, Framed, GoodSize, Place, NewList, Stock, Popped;
      ValidLists();
      FramedParts();
      SizeFits(size);
      ghost var m, heads, start := mem[..], free_list[..], start_free;
      var head;
      ghost var nobjs;
      head, nobjs := Refill(size, i);
      if head == 0 {
        if start < end_free {
          Lost(end_free - start_free);
        }
        return 0;
      }
      WriteHeader(m, heads, start, size, i, nobjs, head);
      p := head + HEAD;
    }

    /** The first chunk of a new stock gets its header. */
    method WriteHeader(ghost m: seq<int>, ghost heads: seq<int>, ghost start: int, size: int, ghost i: int, ghost nobjs: nat, head: int)
      requires Framed() && GoodSize(size) && 0 <= i < SHARE_NFREELISTS && size == ALIGN * (i + 1) && head == start && nobjs > 0
      requires Parted(m, heads, lists, tiles, live, base, start) && lists[i] == [] && base <= start && (start - base) % ALIGN == 0
      requires start_free == Place(start, size, nobjs) && Linked(m, mem[..], base, start, size, nobjs)
      requires free_list[..] == heads[i := HeadOf(NewList(start, size, nobjs))]
      modifies this`lists, this`tiles, this`live, mem
      ensures Valid() && head !in old(live) && live == old(live)[head := size] && Tile(head, size) in tiles && old(tiles) <= tiles
      ensures |old(lists)| == SHARE_NFREELISTS && lists == old(lists)[i := NewList(start, size, nobjs)]
    {
      ghost var m' := mem[..];
      HeaderWritten(m, m', base, start, size, nobjs);
      Refilled(m, m'[Cell(base, start) := size], heads, lists, tiles, live, base, start, i, nobjs);
      FirstOfCut(start, size, nobjs);
      hide Parted, Linked, Stocked, Cut, NewList;
      mem[Cell(base, head)] := size;
      assert mem[..] == m'[Cell(base, start) := size];
      lists := lists[i := NewList(start, size, nobjs)];
      tiles := tiles + Cut(start, size, nobjs);
      live := live[head := size];
    }

    /** No choice of chunks has the start of the arena's rest on a list. */
    lemma Lost(rest: int)
      requires 0 < rest <= SHARE_MAX_BYTES && rest % ALIGN == 0 && free_list.Length == SHARE_NFREELISTS && free_list[ListOf(rest)] == start_free
      ensures !CanBeParted()
    {
      forall lists', tiles', live' | Parted(mem[..], free_list[..], lists', tiles', live', base, start_free) ensures false {
        StartNotListed(mem[..], free_list[..], lists', tiles', live', base, start_free, ListOf(rest));
      }
    }

    /** What is left of the arena goes to the list for its size, but it stays in the arena as well. */
    method FileTail(bytes_left: int)
      requires Framed() && free_list.Length == SHARE_NFREELISTS && bytes_left == end_free - start_free && 0 < bytes_left <= SHARE_MAX_BYTES
      modifies mem, free_list
      ensures Framed() && free_list[ListOf(bytes_left)] == start_free
    {
      var i := FreelistIndex(bytes_left);
      mem[Cell(base, start_free)] := free_list[i];
      free_list[i] := start_free;
    }
  }

  lemma Steps(start: int, size: int, n: nat)
    requires start % ALIGN == 0 && size % ALIGN == 0 && size > 0
    ensures Place(start, size, n) == start + size * n && (start + size * n) % ALIGN == 0 && size * n >= 0
    ensures n > 0 ==> size * n >= size
  {
    Multiples(size / ALIGN, n);
    assert size == ALIGN * (size / ALIGN);
    if n > 0 {
      Grows(size, 1, n);
    }
  }

  lemma Multiples(k: int, n: nat)
    ensures (ALIGN * k) * n == ALIGN * (k * n)
    ensures (ALIGN * k) * n % ALIGN == 0
  {
    assert (ALIGN * k) * n == ALIGN * (k * n);
    Divides(k * n);
  }

  lemma Divides(m: int)
    ensures ALIGN * m % ALIGN == 0
  {
  }

  lemma AtMost(bytes: int, size: int, wanted: nat)
    requires 0 < size <= bytes < size * wanted
    ensures 0 < bytes / size <= wanted && size * (bytes / size) <= bytes
  {
    var q := bytes / size;
    assert bytes == size * q + bytes % size;
    if q > wanted {
      Grows(size, wanted, q);
    }
  }

  lemma NextPlace(start: int, size: int, j: nat)
    ensures Place(start, size, j + 1) == Place(start, size, j) + size
  {
    assert (j + 1) * size == j * size + size;
  }

  /** The chunks from 1 to `i`, but not that one, are linked to the next. */
  predicate LinkedUpTo(m: seq<int>, m': seq<int>, base: int, start: int, size: int, i: nat) {
    && |m'| == |m|
    && (forall c | 0 <= c < Cell(base, start) && c < |m| :: m'[c] == m[c])
    && forall j {:trigger Cell(base, Place(start, size, j))} | 1 <= j < i ::
         0 <= Cell(base, Place(start, size, j)) < |m'| && m'[Cell(base, Place(start, size, j))] == Place(start, size, j + 1)
  }

  lemma PlaceFits(base: int, start: int, size: int, j: nat, n: nat, cells: nat)
    requires GoodSize(size) && base <= start && (start - base) % ALIGN == 0 && j < n && Place(start, size, n) <= base + ALIGN * cells
    ensures base <= Place(start, size, j) && (Place(start, size, j) - base) % ALIGN == 0
    ensures 0 <= Cell(base, Place(start, size, j)) < cells && Cell(base, start) <= Cell(base, Place(start, size, j))
  {
    PlaceAligned(base, start, size, j);
    Ascends(start, size, j, n);
    if j > 0 {
      FirstPlace(start, size);
      PlaceCells(base, start, size, 0, j);
    }
  }

  lemma LinkOne(m: seq<int>, m': seq<int>, base: int, start: int, size: int, i: nat, v: int)
    requires LinkedUpTo(m, m', base, start, size, i) && GoodSize(size) && base <= start && (start - base) % ALIGN == 0 && i > 0
    requires Cell(base, Place(start, size, i)) < |m'|
    ensures Cell(base, Place(start, size, i)) >= 0
    ensures LinkedUpTo(m, m'[Cell(base, Place(start, size, i)) := v], base, start, size, i)
    ensures v == Place(start, size, i + 1) ==> LinkedUpTo(m, m'[Cell(base, Place(start, size, i)) := v], base, start, size, i + 1)
  {
    FirstPlace(start, size);
    hide Place;
    PlaceCells(base, start, size, 0, i);
    forall j | 1 <= j < i ensures Cell(base, Place(start, size, j)) < Cell(base, Place(start, size, i)) {
      PlaceCells(base, start, size, j, i);
    }
  }

  lemma AllLinked(m: seq<int>, m': seq<int>, base: int, start: int, size: int, n: nat)
    requires n > 1 && LinkedUpTo(m, m', base, start, size, n - 1) && GoodSize(size) && base <= start && (start - base) % ALIGN == 0
    requires Place(start, size, n) <= base + ALIGN * |m|
    requires 0 <= Cell(base, Place(start, size, n - 1)) < |m'| && m'[Cell(base, Place(start, size, n - 1))] == 0
    ensures Linked(m, m', base, start, size, n)
  {
    hide Place;
    forall j | 0 <= j < n ensures InMemory(m', base, Place(start, size, j)) {
      PlaceFits(base, start, size, j, n, |m|);
    }
  }

  /** A stock of one chunk needs no links. */
  lemma OneLinked(m: seq<int>, base: int, start: int, size: int)
    requires GoodSize(size) && base <= start && (start - base) % ALIGN == 0 && start + size <= base + ALIGN * |m|
    ensures Linked(m, m, base, start, size, 1) && HeadOf(NewList(start, size, 1)) == 0
  {
    FirstPlace(start, size);
  }

  lemma NewListHead(start: int, size: int, n: nat)
    requires n > 1
    ensures HeadOf(NewList(start, size, n)) == start + size
  {
    NextPlace(start, size, 0);
    FirstPlace(start, size);
  }

  lemma SizeOfRequest(n: nat)
    requires n <= SHARE_MAX_BYTES - HEAD
    ensures var size := RoundUp(n + HEAD); GoodSize(size) && FreelistIndex(size) == ListOf(size) && size == ALIGN * (ListOf(size) + 1) && 0 <= ListOf(size) < SHARE_NFREELISTS
  {
  }

  lemma SizeFits(size: int)
    requires GoodSize(size)
    ensures 0 < size <= SHARE_MAX_BYTES && 0 <= ListOf(size) < SHARE_NFREELISTS
  {
  }

  lemma FirstOfCut(start: int, size: int, n: nat)
    requires n > 0
    ensures Tile(start, size) in Cut(start, size, n)
  {
    FirstPlace(start, size);
    assert Cut(start, size, n)[0] == Tile(start, size);
  }

  /** Live data does not overlap, and is as long as was asked for. */
  lemma LiveApart(pool: CShareMemPool, a: int, b: int)
    requires pool.Valid() && a in pool.live && b in pool.live && a != b
    ensures a + pool.live[a] <= b || b + pool.live[b] <= a
    ensures pool.base <= a && a + pool.live[a] <= pool.end_free && a % ALIGN == 0
  {
    var s, t := Tile(a, pool.live[a]), Tile(b, pool.live[b]);
    TilesApart(pool.tiles, pool.base, pool.start_free, s, t);
    TileIn(pool.tiles, pool.base, pool.start_free, s);
  }

  /** Every byte of the arena is in one live chunk, or in one chunk of one list, or not yet given out. */
  lemma EveryByte(pool: CShareMemPool, x: int) returns (t: Tile)
    requires pool.Valid() && pool.base <= x < pool.end_free
    ensures x < pool.start_free ==>
      && t in pool.tiles && t.addr <= x < t.addr + t.size && 0 <= ListOf(t.size) < SHARE_NFREELISTS
      && (t.addr in pool.live <==> t.addr !in pool.lists[ListOf(t.size)])
    ensures x < pool.start_free ==> forall s | s in pool.tiles && s.addr <= x < s.addr + s.size :: s == t
    ensures x >= pool.start_free ==> forall s | s in pool.tiles :: s.addr + s.size <= x
  {
    if x < pool.start_free {
      t := TilesCover(pool.tiles, pool.base, pool.start_free, x);
      TileMemory(pool.mem[..], pool.tiles, pool.base, pool.start_free, t);
      forall s | s in pool.tiles && s.addr <= x < s.addr + s.size ensures s == t {
        if s != t {
          TilesApart(pool.tiles, pool.base, pool.start_free, s, t);
        }
      }
      assert ListOk(pool.mem[..], pool.base, pool.free_list[ListOf(t.size)], pool.lists[ListOf(t.size)], ListOf(t.size), pool.tiles, pool.live);
    } else {
      t := Tile(0, 0);
      forall s | s in pool.tiles ensures s.addr + s.size <= x {
        TileIn(pool.tiles, pool.base, pool.start_free, s);
      }
    }
  }

  /** Two requests for 108 bytes in an arena of 200: the first is served, the second finds 96 bytes left, files them in a list
      and leaves them in the arena as well. */
  method RestIsFiled() returns (pool: CShareMemPool, p: int, q: int)
    ensures fresh(pool) && p != 0 && q == 0 && pool.live == map[p - HEAD := 112]
    ensures pool.end_free - pool.start_free == 96 && !pool.CanBeParted()
  {
    hide Parted, CShareMemPool.CanBeParted, GoodSize, NewList, Place;
    pool := new CShareMemPool(4096, 200, 0);
    assert RoundUp(RoundUp(200) + HEAD) == 208 && RoundUp(108 + HEAD) == 112 && ListOf(112) == 13;
    pool.ValidLists();
    p := pool.Allocate(108);
    assert Stock(208, 112, 20) == 1;
    OneChunk(4096, 112);
    pool.ValidLists();
    q := pool.Allocate(108);
  }

  lemma OneChunk(start: int, size: int)
    ensures Place(start, size, 1) == start + size && NewList(start, size, 1) == []
  {
  }
}
