/** The chunks of an arena, side by side, and the lists of those that are free. */
module ShareTiles {

  const ALIGN := 8
  const SHARE_MAX_BYTES := 4096
  const SHARE_NFREELISTS := SHARE_MAX_BYTES / ALIGN

  /** The size of the header in front of the data. */
  const HEAD := 4

  function RoundUp(n: nat): (r: nat)
    ensures r % ALIGN == 0 && n <= r < n + ALIGN
  {
    (n + ALIGN - 1) / ALIGN * ALIGN
  }

  function FreelistIndex(bytes: nat): int { (bytes + ALIGN - 1) / ALIGN - 1 }

  /** A chunk of the arena. */
  datatype Tile = Tile(addr: int, size: int)

  predicate GoodSize(s: int) { 0 < s <= SHARE_MAX_BYTES && s % ALIGN == 0 }

  /** The chunks lie side by side from `base` up to `end`. */
  predicate Tiled(tiles: seq<Tile>, base: int, end: int) {
    if |tiles| == 0 then base == end
    else
      var last := tiles[|tiles| - 1];
      GoodSize(last.size) && last.addr + last.size == end && Tiled(tiles[..|tiles| - 1], base, last.addr)
  }

  lemma {:induction false} TilesInOrder(tiles: seq<Tile>, base: int, end: int, j: nat, k: nat)
    requires Tiled(tiles, base, end) && j < k < |tiles|
    ensures tiles[j].addr + tiles[j].size <= tiles[k].addr
  {
    var less := tiles[..|tiles| - 1];
    if k < |tiles| - 1 {
      TilesInOrder(less, base, tiles[|tiles| - 1].addr, j, k);
    } else {
      TileInside(less, base, tiles[k].addr, j);
    }
  }

  lemma {:induction false} TileInside(tiles: seq<Tile>, base: int, end: int, j: nat)
    requires Tiled(tiles, base, end) && j < |tiles|
    ensures GoodSize(tiles[j].size) && base <= tiles[j].addr && tiles[j].addr + tiles[j].size <= end
    ensures (tiles[j].addr - base) % ALIGN == 0
  {
    TiledBounds(tiles, base, end);
    var last := tiles[|tiles| - 1];
    TiledBounds(tiles[..|tiles| - 1], base, last.addr);
    if j < |tiles| - 1 {
      TileInside(tiles[..|tiles| - 1], base, last.addr, j);
    }
  }

  lemma {:induction false} TiledBounds(tiles: seq<Tile>, base: int, end: int)
    requires Tiled(tiles, base, end)
    ensures base <= end && (end - base) % ALIGN == 0
  {
    if |tiles| > 0 {
      TiledBounds(tiles[..|tiles| - 1], base, tiles[|tiles| - 1].addr);
    }
  }

  /** Different chunks do not overlap. */
  lemma TilesApart(tiles: seq<Tile>, base: int, end: int, s: Tile, t: Tile)
    requires Tiled(tiles, base, end) && s in tiles && t in tiles && s != t
    ensures s.addr + s.size <= t.addr || t.addr + t.size <= s.addr
  {
    var j :| 0 <= j < |tiles| && tiles[j] == s;
    var k :| 0 <= k < |tiles| && tiles[k] == t;
    TilesInOrder(tiles, base, end, if j < k then j else k, if j < k then k else j);
  }

  lemma TileIn(tiles: seq<Tile>, base: int, end: int, t: Tile)
    requires Tiled(tiles, base, end) && t in tiles
    ensures GoodSize(t.size) && base <= t.addr && t.addr + t.size <= end && (t.addr - base) % ALIGN == 0
  {
    var j :| 0 <= j < |tiles| && tiles[j] == t;
    TileInside(tiles, base, end, j);
  }

  /** Every byte of the tiled part is in a chunk. */
  lemma {:induction false} TilesCover(tiles: seq<Tile>, base: int, end: int, x: int) returns (t: Tile)
    requires Tiled(tiles, base, end) && base <= x < end
    ensures t in tiles && t.addr <= x < t.addr + t.size
  {
    var last := tiles[|tiles| - 1];
    if x >= last.addr {
      t := last;
    } else {
      t := TilesCover(tiles[..|tiles| - 1], base, last.addr, x);
    }
  }

  /** The address of the chunk with number `k`, if chunks of one size begin at `start`. */
  function Place(start: int, size: int, k: nat): int { start + k * size }

  /** `n` chunks of the same size from `start` on. */
  function Cut(start: int, size: int, n: nat): (ts: seq<Tile>)
    ensures |ts| == n
  {
    seq(n, k requires 0 <= k < n => Tile(Place(start, size, k), size))
  }

  lemma {:induction false} TiledMore(tiles: seq<Tile>, base: int, start: int, size: int, n: nat)
    requires Tiled(tiles, base, start) && GoodSize(size)
    ensures Tiled(tiles + Cut(start, size, n), base, Place(start, size, n))
  {
    if n > 0 {
      TiledMore(tiles, base, start, size, n - 1);
      var all := tiles + Cut(start, size, n);
      assert all[..|all| - 1] == tiles + Cut(start, size, n - 1) && all[|all| - 1] == Tile(Place(start, size, n - 1), size);
      assert (n - 1) * size + size == n * size;
    } else {
      assert tiles + Cut(start, size, 0) == tiles;
    }
  }

  // Free lists.

  /** The place in memory where a chunk begins; memory is in units of eight bytes. */
  function Cell(base: int, a: int): int { (a - base) / ALIGN }

  predicate InMemory(m: seq<int>, base: int, a: int) { base <= a && (a - base) % ALIGN == 0 && Cell(base, a) < |m| }

  /** The list starts at `head`, and each chunk has the address of the next in its first cell. */
  predicate Chained(m: seq<int>, base: int, head: int, list: seq<int>) {
    && head == HeadOf(list)
    && forall j | 0 <= j < |list| :: InMemory(m, base, list[j]) && m[Cell(base, list[j])] == After(list, j)
  }

  function After(list: seq<int>, j: nat): int { if j + 1 < |list| then list[j + 1] else 0 }

  function HeadOf(list: seq<int>): int { if |list| > 0 then list[0] else 0 }

  lemma ChainedRest(m: seq<int>, base: int, head: int, list: seq<int>)
    requires Chained(m, base, head, list) && |list| > 0
    ensures InMemory(m, base, head) && head == list[0] && Chained(m, base, m[Cell(base, head)], list[1..])
  {
    var rest := list[1..];
    forall j | 0 <= j < |rest| ensures InMemory(m, base, rest[j]) && m[Cell(base, rest[j])] == After(rest, j) {
      assert rest[j] == list[j + 1] && After(rest, j) == After(list, j + 1);
    }
  }

  /** A write to a chunk that is not in the list. */
  lemma ChainedElsewhere(m: seq<int>, base: int, head: int, list: seq<int>, a: int, v: int)
    requires Chained(m, base, head, list) && InMemory(m, base, a) && a !in list
    ensures Chained(m[Cell(base, a) := v], base, head, list)
  {
    forall j | 0 <= j < |list| ensures Cell(base, list[j]) != Cell(base, a) {
      assert list[j] in list;
    }
  }

  lemma ChainedFront(m: seq<int>, base: int, head: int, list: seq<int>, a: int)
    requires Chained(m, base, head, list) && InMemory(m, base, a) && a !in list
    ensures Chained(m[Cell(base, a) := head], base, a, [a] + list)
  {
    var m' := m[Cell(base, a) := head];
    ChainedElsewhere(m, base, head, list, a, head);
    var all := [a] + list;
    forall j | 0 <= j < |all| ensures InMemory(m', base, all[j]) && m'[Cell(base, all[j])] == After(all, j) {
      if j > 0 {
        assert all[j] == list[j - 1] && After(all, j) == After(list, j - 1);
        assert m'[Cell(base, list[j - 1])] == After(list, j - 1);
      }
    }
  }

  // The whole arena.

  predicate NoRepeats(list: seq<int>) { forall j, k | 0 <= j < k < |list| :: list[j] != list[k] }

  /** The list for chunks of a size. */
  function ListOf(size: int): int { size / ALIGN - 1 }

  /** List `i` holds the chunks of its size that are not live, each once. */
  ghost predicate ListOk(m: seq<int>, base: int, head: int, list: seq<int>, i: int, tiles: seq<Tile>, live: map<int, int>) {
    && Chained(m, base, head, list) && NoRepeats(list)
    && (forall a | a in list :: Tile(a, ALIGN * (i + 1)) in tiles && a !in live)
    && (forall a | Tile(a, ALIGN * (i + 1)) in tiles && a !in live :: a in list)
  }

  /** A live chunk has its size in its header. */
  predicate LiveOk(m: seq<int>, tiles: seq<Tile>, live: map<int, int>, base: int) {
    forall a | a in live :: Tile(a, live[a]) in tiles && InMemory(m, base, a) && m[Cell(base, a)] == live[a]
  }

  /** Up to `start` every chunk is live or in the list for its size, and nothing else is. */
  ghost predicate Parted(m: seq<int>, heads: seq<int>, lists: seq<seq<int>>, tiles: seq<Tile>, live: map<int, int>, base: int, start: int) {
    && Tiled(tiles, base, start)
    && base > 0 && start <= base + ALIGN * |m|
    && |heads| == |lists| == SHARE_NFREELISTS
    && (forall i | 0 <= i < |lists| :: ListOk(m, base, heads[i], lists[i], i, tiles, live))
    && LiveOk(m, tiles, live, base)
  }

  lemma TileMemory(m: seq<int>, tiles: seq<Tile>, base: int, start: int, t: Tile)
    requires Tiled(tiles, base, start) && start <= base + ALIGN * |m| && t in tiles
    ensures InMemory(m, base, t.addr) && 0 <= ListOf(t.size) < SHARE_NFREELISTS && t.size == ALIGN * (ListOf(t.size) + 1)
  {
    TileIn(tiles, base, start, t);
  }

  /** The chunks at one address are one chunk. */
  lemma OneTile(tiles: seq<Tile>, base: int, start: int, s: Tile, t: Tile)
    requires Tiled(tiles, base, start) && s in tiles && t in tiles && s.addr == t.addr
    ensures s == t
  {
    if s != t {
      TilesApart(tiles, base, start, s, t);
      TileIn(tiles, base, start, s);
      TileIn(tiles, base, start, t);
    }
  }

  /** A list for another size does not see what happens to a chunk. */
  lemma ListElsewhere(m: seq<int>, base: int, head: int, list: seq<int>, l: int, tiles: seq<Tile>, live: map<int, int>, start: int,
      a: int, n: int, v: int, live': map<int, int>)
    requires Tiled(tiles, base, start) && ListOk(m, base, head, list, l, tiles, live)
    requires Tile(a, n) in tiles && InMemory(m, base, a) && n != ALIGN * (l + 1)
    requires live - {a} == live' - {a}
    ensures ListOk(m[Cell(base, a) := v], base, head, list, l, tiles, live')
  {
    assert Tile(a, ALIGN * (l + 1)) !in tiles by {
      if Tile(a, ALIGN * (l + 1)) in tiles {
        OneTile(tiles, base, start, Tile(a, ALIGN * (l + 1)), Tile(a, n));
      }
    }
    ChainedElsewhere(m, base, head, list, a, v);
    forall b | b != a ensures b in live <==> b in live' {
      assert b in live <==> b in live - {a};
      assert b in live' <==> b in live' - {a};
    }
  }

  lemma ListTaken(m: seq<int>, base: int, head: int, list: seq<int>, i: int, tiles: seq<Tile>, live: map<int, int>, n: int)
    requires ListOk(m, base, head, list, i, tiles, live) && |list| > 0 && n == ALIGN * (i + 1)
    ensures InMemory(m, base, head) && head == list[0]
    ensures ListOk(m[Cell(base, head) := n], base, m[Cell(base, head)], list[1..], i, tiles, live[head := n])
  {
    ChainedRest(m, base, head, list);
    RestOf(list);
    ChainedElsewhere(m, base, m[Cell(base, head)], list[1..], head, n);
    hide Chained, NoRepeats;
  }

  lemma RestOf(list: seq<int>)
    requires NoRepeats(list) && |list| > 0
    ensures NoRepeats(list[1..]) && list[0] !in list[1..]
    ensures forall a | a in list :: a == list[0] || a in list[1..]
    ensures forall a | a in list[1..] :: a in list
  {
    assert list == [list[0]] + list[1..];
  }

  lemma ListGiven(m: seq<int>, base: int, head: int, list: seq<int>, i: int, tiles: seq<Tile>, live: map<int, int>, a: int)
    requires ListOk(m, base, head, list, i, tiles, live) && a in live && Tile(a, ALIGN * (i + 1)) in tiles && InMemory(m, base, a)
    ensures ListOk(m[Cell(base, a) := head], base, a, [a] + list, i, tiles, live - {a})
  {
    ChainedFront(m, base, head, list, a);
    assert NoRepeats([a] + list) by {
      assert forall j | 0 <= j < |list| :: list[j] in list;
    }
  }

  lemma LiveElsewhere(m: seq<int>, tiles: seq<Tile>, live: map<int, int>, base: int, a: int, v: int)
    requires LiveOk(m, tiles, live, base) && InMemory(m, base, a)
    ensures LiveOk(m[Cell(base, a) := v], tiles, live - {a}, base)
    ensures Tile(a, v) in tiles ==> LiveOk(m[Cell(base, a) := v], tiles, live[a := v], base)
  {
    forall b | b in live && b != a ensures Cell(base, b) != Cell(base, a) {}
  }

  /** A chunk goes out of the front of its list. */
  lemma Taken(m: seq<int>, heads: seq<int>, lists: seq<seq<int>>, tiles: seq<Tile>, live: map<int, int>, base: int, start: int, i: nat)
    requires Parted(m, heads, lists, tiles, live, base, start) && i < SHARE_NFREELISTS && |lists[i]| > 0
    ensures var a, n := heads[i], ALIGN * (i + 1);
      && Tile(a, n) in tiles && a == lists[i][0] && a !in live && InMemory(m, base, a)
      && Parted(m[Cell(base, a) := n], heads[i := m[Cell(base, a)]], lists[i := lists[i][1..]], tiles, live[a := n], base, start)
  {
    hide Tiled, Chained, NoRepeats, LiveOk;
    var a, n := heads[i], ALIGN * (i + 1);
    ListTaken(m, base, a, lists[i], i, tiles, live, n);
    assert a in lists[i];
    var heads', lists' := heads[i := m[Cell(base, a)]], lists[i := lists[i][1..]];
    forall l | 0 <= l < |lists'| && l != i ensures ListOk(m[Cell(base, a) := n], base, heads'[l], lists'[l], l, tiles, live[a := n]) {
      ListElsewhere(m, base, heads[l], lists[l], l, tiles, live, start, a, n, n, live[a := n]);
    }
    LiveElsewhere(m, tiles, live, base, a, n);
  }

  /** A chunk goes to the front of its list. */
  lemma Given(m: seq<int>, heads: seq<int>, lists: seq<seq<int>>, tiles: seq<Tile>, live: map<int, int>, base: int, start: int, a: int)
    requires Parted(m, heads, lists, tiles, live, base, start) && a in live
    ensures var i := ListOf(live[a]);
      && 0 <= i < SHARE_NFREELISTS && live[a] == ALIGN * (i + 1) && InMemory(m, base, a) && m[Cell(base, a)] == live[a]
      && Parted(m[Cell(base, a) := heads[i]], heads[i := a], lists[i := [a] + lists[i]], tiles, live - {a}, base, start)
  {
    var s := live[a];
    assert Tile(a, s) in tiles;
    TileMemory(m, tiles, base, start, Tile(a, s));
    LiveElsewhere(m, tiles, live, base, a, heads[ListOf(s)]);
    hide Tiled, ListOk, LiveOk, InMemory, Cell;
    var i := ListOf(s);
    var heads', lists' := heads[i := a], lists[i := [a] + lists[i]];
    forall l | 0 <= l < |lists'| ensures ListOk(m[Cell(base, a) := heads[i]], base, heads'[l], lists'[l], l, tiles, live - {a}) {
      if l == i {
        ListGiven(m, base, heads[i], lists[i], i, tiles, live, a);
      } else {
        ListElsewhere(m, base, heads[l], lists[l], l, tiles, live, start, a, s, heads[i], live - {a});
      }
    }
  }

  // A new stock of chunks.

  function NewList(start: int, size: int, n: nat): (list: seq<int>)
    requires n > 0
    ensures |list| == n - 1
  {
    seq(n - 1, j requires 0 <= j < n - 1 => Place(start, size, j + 1))
  }

  /** Memory after a refill: the cells before the new chunks are as they were, and all new chunks but the first are linked. */
  predicate Linked(m: seq<int>, m': seq<int>, base: int, start: int, size: int, n: nat) {
    && |m'| == |m| && n > 0
    && (forall c | 0 <= c < Cell(base, start) && c < |m| :: m'[c] == m[c])
    && (forall j {:trigger Place(start, size, j)} | 0 <= j < n :: InMemory(m', base, Place(start, size, j)))
    && forall j {:trigger Cell(base, Place(start, size, j))} | 1 <= j < n :: m'[Cell(base, Place(start, size, j))] == if j + 1 < n then Place(start, size, j + 1) else 0
  }

  /** The first of them has its size in its header. */
  predicate Stocked(m: seq<int>, m': seq<int>, base: int, start: int, size: int, n: nat) {
    Linked(m, m', base, start, size, n) && m'[Cell(base, Place(start, size, 0))] == size
  }

  lemma HeaderWritten(m: seq<int>, m': seq<int>, base: int, start: int, size: int, n: nat)
    requires Linked(m, m', base, start, size, n) && GoodSize(size) && base <= start && (start - base) % ALIGN == 0
    ensures InMemory(m', base, start) && Stocked(m, m'[Cell(base, start) := size], base, start, size, n)
  {
    FirstPlace(start, size);
    hide Place;
    assert InMemory(m', base, Place(start, size, 0));
    forall j | 1 <= j < n ensures Cell(base, Place(start, size, j)) != Cell(base, start) {
      PlaceCells(base, start, size, 0, j);
    }
  }

  lemma PlaceCells(base: int, start: int, size: int, j: nat, k: nat)
    requires GoodSize(size) && base <= start && (start - base) % ALIGN == 0 && j < k
    ensures Cell(base, Place(start, size, j)) < Cell(base, Place(start, size, k))
    ensures base <= Place(start, size, j) && (Place(start, size, j) - base) % ALIGN == 0
  {
    PlaceAligned(base, start, size, j);
    PlaceAligned(base, start, size, k);
    Ascends(start, size, j, k);
  }

  lemma PlaceAligned(base: int, start: int, size: int, j: nat)
    requires GoodSize(size) && base <= start && (start - base) % ALIGN == 0
    ensures base <= Place(start, size, j) && (Place(start, size, j) - base) % ALIGN == 0
  {
    var k := size / ALIGN;
    assert j * size == ALIGN * (k * j);
    Grows(size, 0, j);
  }

  /** Places go up in steps of the size. */
  lemma Ascends(start: int, size: int, j: nat, k: nat)
    requires size > 0 && j < k
    ensures Place(start, size, j) + size <= Place(start, size, k)
  {
    Grows(size, j + 1, k);
    assert (j + 1) * size == j * size + size;
  }

  lemma Grows(size: int, j: nat, k: nat)
    requires size > 0 && j <= k
    ensures j * size <= k * size
  {
    assert k * size == j * size + (k - j) * size;
  }

  lemma FirstPlace(start: int, size: int)
    ensures Place(start, size, 0) == start
  {
  }

  lemma OldBelow(m: seq<int>, tiles: seq<Tile>, base: int, start: int, t: Tile)
    requires Tiled(tiles, base, start) && start <= base + ALIGN * |m| && t in tiles
    ensures base <= t.addr < start && Cell(base, t.addr) < Cell(base, start)
  {
    TileIn(tiles, base, start, t);
    TiledBounds(tiles, base, start);
  }

  lemma InCut(start: int, size: int, n: nat, t: Tile)
    requires t in Cut(start, size, n) && size > 0
    ensures t.size == size && t.addr >= start && exists j | 0 <= j < n :: t == Tile(Place(start, size, j), size)
  {
    var j :| 0 <= j < n && Cut(start, size, n)[j] == t;
    if j > 0 {
      Ascends(start, size, 0, j);
    }
  }

  /** A list for another size. */
  lemma ListKept(m: seq<int>, m': seq<int>, base: int, head: int, list: seq<int>, l: int, tiles: seq<Tile>, live: map<int, int>, start: int, size: int, n: nat)
    requires Tiled(tiles, base, start) && start <= base + ALIGN * |m| && ListOk(m, base, head, list, l, tiles, live)
    requires Stocked(m, m', base, start, size, n) && size > 0 && size != ALIGN * (l + 1)
    ensures ListOk(m', base, head, list, l, tiles + Cut(start, size, n), live[start := size])
  {
    forall j | 0 <= j < |list| ensures InMemory(m', base, list[j]) && m'[Cell(base, list[j])] == After(list, j) {
      assert list[j] in list;
      OldBelow(m, tiles, base, start, Tile(list[j], ALIGN * (l + 1)));
    }
    forall a | a in list ensures a != start {
      OldBelow(m, tiles, base, start, Tile(a, ALIGN * (l + 1)));
    }
    forall t | t in Cut(start, size, n) ensures t.size == size {
      InCut(start, size, n, t);
    }
  }

  /** The list for the size of the new chunks. */
  lemma ListStocked(m: seq<int>, m': seq<int>, base: int, i: int, tiles: seq<Tile>, live: map<int, int>, start: int, size: int, n: nat)
    requires Tiled(tiles, base, start) && start <= base + ALIGN * |m| && ListOk(m, base, 0, [], i, tiles, live)
    requires LiveOk(m, tiles, live, base)
    requires Stocked(m, m', base, start, size, n) && size > 0 && size == ALIGN * (i + 1)
    ensures ListOk(m', base, HeadOf(NewList(start, size, n)), NewList(start, size, n), i, tiles + Cut(start, size, n), live[start := size])
  {
    var list := NewList(start, size, n);
    ChainStocked(m, m', base, start, size, n);
    NewListApart(start, size, n);
    FirstPlace(start, size);
    hide Place, Tiled, LiveOk, Stocked, Chained, NoRepeats, NewList, Cut;
    forall a | a in list ensures Tile(a, size) in tiles + Cut(start, size, n) && a !in live[start := size] {
      NewListIs(start, size, n, a);
      NotLive(m, tiles, live, base, start, a);
    }
    forall a | Tile(a, size) in tiles + Cut(start, size, n) && a !in live[start := size] ensures a in list {
      if Tile(a, size) in Cut(start, size, n) {
        NewListIs(start, size, n, a);
      }
    }
  }

  lemma ChainStocked(m: seq<int>, m': seq<int>, base: int, start: int, size: int, n: nat)
    requires Stocked(m, m', base, start, size, n)
    ensures Chained(m', base, HeadOf(NewList(start, size, n)), NewList(start, size, n))
  {
    forall j | 0 <= j < n - 1
      ensures InMemory(m', base, NewList(start, size, n)[j])
      ensures m'[Cell(base, NewList(start, size, n)[j])] == After(NewList(start, size, n), j)
    {
      LinkStocked(m, m', base, start, size, n, j);
    }
  }

  lemma LinkStocked(m: seq<int>, m': seq<int>, base: int, start: int, size: int, n: nat, j: nat)
    requires Stocked(m, m', base, start, size, n) && j < n - 1
    ensures var list := NewList(start, size, n); InMemory(m', base, list[j]) && m'[Cell(base, list[j])] == After(list, j)
  {
    hide Place;
    var a := Place(start, size, j + 1);
    assert NewList(start, size, n)[j] == a;
    assert InMemory(m', base, a) && m'[Cell(base, a)] == if j + 2 < n then Place(start, size, j + 2) else 0;
  }

  lemma NewListApart(start: int, size: int, n: nat)
    requires n > 0 && size > 0
    ensures NoRepeats(NewList(start, size, n))
  {
    var list := NewList(start, size, n);
    forall j, k | 0 <= j < k < |list| ensures list[j] != list[k] {
      Ascends(start, size, j + 1, k + 1);
    }
  }

  /** The list has all new chunks but the first. */
  lemma NewListIs(start: int, size: int, n: nat, a: int)
    requires n > 0 && size > 0
    ensures a in NewList(start, size, n) <==> Tile(a, size) in Cut(start, size, n) && a != start
    ensures a in NewList(start, size, n) ==> a > start
  {
    var list, cut := NewList(start, size, n), Cut(start, size, n);
    FirstPlace(start, size);
    hide Place;
    if a in list {
      var j :| 0 <= j < |list| && list[j] == a;
      assert cut[j + 1] == Tile(a, size);
      Ascends(start, size, 0, j + 1);
    }
    if Tile(a, size) in cut && a != start {
      var j :| 0 <= j < n && cut[j] == Tile(a, size);
      assert list[j - 1] == a;
    }
  }

  lemma NotLive(m: seq<int>, tiles: seq<Tile>, live: map<int, int>, base: int, start: int, a: int)
    requires Tiled(tiles, base, start) && start <= base + ALIGN * |m| && LiveOk(m, tiles, live, base) && a >= start
    ensures a !in live
  {
    if a in live {
      OldBelow(m, tiles, base, start, Tile(a, live[a]));
    }
  }

  /** After a refill the chunk that is given out is live, and the others are in the list that was empty. */
  lemma Refilled(m: seq<int>, m': seq<int>, heads: seq<int>, lists: seq<seq<int>>, tiles: seq<Tile>, live: map<int, int>, base: int, start: int,
      i: nat, n: nat)
    requires Parted(m, heads, lists, tiles, live, base, start) && i < SHARE_NFREELISTS && lists[i] == []
    requires Stocked(m, m', base, start, ALIGN * (i + 1), n) && Place(start, ALIGN * (i + 1), n) <= base + ALIGN * |m|
    ensures var size, list := ALIGN * (i + 1), NewList(start, ALIGN * (i + 1), n);
      && start !in live && heads[i] == 0
      && Parted(m', heads[i := HeadOf(list)], lists[i := list], tiles + Cut(start, size, n), live[start := size], base, Place(start, size, n))
  {
    var size, list := ALIGN * (i + 1), NewList(start, ALIGN * (i + 1), n);
    FirstPlace(start, size);
    TiledMore(tiles, base, start, size, n);
    EndInMemory(m', base, start, size, n);
    NotLive(m, tiles, live, base, start, start);
    LiveStocked(m, m', tiles, live, base, start, size, n);
    hide Place, Tiled, LiveOk, Stocked, NewList, Cut;
    var heads', lists' := heads[i := HeadOf(list)], lists[i := list];
    forall l | 0 <= l < |lists'| ensures ListOk(m', base, heads'[l], lists'[l], l, tiles + Cut(start, size, n), live[start := size]) {
      if l == i {
        ListStocked(m, m', base, i, tiles, live, start, size, n);
      } else {
        ListKept(m, m', base, heads[l], lists[l], l, tiles, live, start, size, n);
      }
    }
  }

  lemma EndInMemory(m: seq<int>, base: int, start: int, size: int, n: nat)
    requires n > 0 && size % ALIGN == 0 && Place(start, size, n) <= base + ALIGN * |m|
    ensures Place(start, size, n) == Place(start, size, n - 1) + size
  {
    assert (n - 1) * size + size == n * size;
  }

  lemma LiveStocked(m: seq<int>, m': seq<int>, tiles: seq<Tile>, live: map<int, int>, base: int, start: int, size: int, n: nat)
    requires Tiled(tiles, base, start) && start <= base + ALIGN * |m| && LiveOk(m, tiles, live, base)
    requires Stocked(m, m', base, start, size, n)
    ensures LiveOk(m', tiles + Cut(start, size, n), live[start := size], base)
  {
    FirstPlace(start, size);
    forall a | a in live ensures m'[Cell(base, a)] == live[a] && InMemory(m', base, a) && a != start {
      OldBelow(m, tiles, base, start, Tile(a, live[a]));
    }
    assert Cut(start, size, n)[0] == Tile(start, size);
  }

  /** Memory in use is never on a list from its start on. */
  lemma StartNotListed(m: seq<int>, heads: seq<int>, lists: seq<seq<int>>, tiles: seq<Tile>, live: map<int, int>, base: int, start: int, i: nat)
    requires Parted(m, heads, lists, tiles, live, base, start) && i < SHARE_NFREELISTS
    ensures heads[i] != start
  {
    assert ListOk(m, base, heads[i], lists[i], i, tiles, live);
    TiledBounds(tiles, base, start);
    if |lists[i]| > 0 {
      assert heads[i] in lists[i];
      TileIn(tiles, base, start, Tile(heads[i], ALIGN * (i + 1)));
    }
  }

  /** An empty list has no head. */
  lemma NoHead(m: seq<int>, heads: seq<int>, lists: seq<seq<int>>, tiles: seq<Tile>, live: map<int, int>, base: int, start: int, i: nat)
    requires Parted(m, heads, lists, tiles, live, base, start) && i < SHARE_NFREELISTS
    ensures heads[i] == 0 <==> lists[i] == []
  {
    assert ListOk(m, base, heads[i], lists[i], i, tiles, live);
    if |lists[i]| > 0 {
      assert heads[i] in lists[i];
      TileIn(tiles, base, start, Tile(heads[i], ALIGN * (i + 1)));
    }
  }
}
