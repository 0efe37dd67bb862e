/** The skip list: a map kept as rows of ever fewer keys, searched from the top row down. */
module SkipList {
  import opened SkipListNodes
  import opened SkipListLinks
  import opened SkipListColumns
  import opened SkipListHeights

  class SkipList {
    const top: Node
    var level: nat
    var count: nat
    ghost var rows: seq<Row>
    ghost var m: map<int, Ptr>

    ghost function Bottom(): Row
      reads this
      requires |rows| > 0
    {
      rows[|rows| - 1]
    }

    ghost predicate Valid()
      reads this, NodesOf(rows)`right, NodesOf(rows)`down, DataIn(rows)`value
    {
      && Shape(rows) && Linked(rows) && rows[0][0] == top
      && Holds(Bottom(), m)
      && level == |rows| && count == |m|
      && (level > 1 ==> |rows[0]| > 1)
    }

    /** `skip_list_create`. */
    constructor ()
      ensures Valid() && m == map[] && fresh(NodesOf(rows)) && DataIn(rows) == {}
    {
      top := new Node(null);
      level, count := 1, 0;
      rows := [[top]];
      m := map[];
    }

    /** `search_data`: down from the top row, as soon as the key is found. */
    method SearchData(key: int) returns (d: Data?)
      requires Valid()
      ensures d == null <==> key !in m
      ensures d != null ==> d.key == key && HasData(Bottom(), d) && d.value == m[key]
    {
      hide Shape, Linked, Holds, HasData, RightOf;
      TopLeft(rows);
      var node: Node? := top;
      ghost var i: nat, j: nat := 0, 0;
      while node != null
        invariant node != null ==> At(rows, i, j, node, key)
        invariant node == null ==> key !in m
        invariant Linked(rows) && Holds(Bottom(), m)
        decreases |rows| - i
      {
        Neighbour(rows, i, j);
        while node.right != null && key > node.right.data.key
          invariant node != null && At(rows, i, j, node, key)
          invariant node.right == RightOf(rows[i], j) && (node.right != null ==> node.right.data != null)
          invariant Linked(rows) && Holds(Bottom(), m)
          decreases |rows[i]| - j
        {
          RightIs(rows[i], j);
          node, j := node.right, j + 1;
          Neighbour(rows, i, j);
        }
        if node.right != null && key == node.right.data.key {
          RightIs(rows[i], j);
          InBottom(rows, i, j + 1);
          DataHolds(Bottom(), m, node.right.data);
          return node.right.data;
        }
        RightIs(rows[i], j);
        if i == |rows| - 1 {
          BottomPlace(rows, j);
          NotBetween(rows[i], j, key, m);
        } else {
          j := Below(rows, i, j);
        }
        node, i := node.down, i + 1;
      }
      return null;
    }

    /** `search_data_update`: always down to the bottom row, and the last node left of the key in each row is kept. */
    method SearchDataUpdate(key: int, update: array<Node>) returns (d: Data?, ghost places: seq<nat>)
      requires Shape(rows) && Linked(rows) && rows[0][0] == top && update.Length == |rows|
      modifies update
      ensures Path(rows, update[..], places, key)
      ensures d == null <==> !HasKey(Bottom(), key)
      ensures d != null ==> d.key == key && HasData(Bottom(), d)
    {
      hide Shape, Linked, LinkedBut, Apart, HasData, HasKey, RightOf, Left;
      TopLeft(rows);
      var node: Node := top;
      var i := 0;
      ghost var j: nat := 0;
      places := [];
      ghost var path: seq<Node> := [];
      while true
        invariant |path| == |places| == i < |rows| == update.Length && At(rows, i, j, node, key)
        invariant update[..i] == path
        invariant forall k | 0 <= k < i :: places[k] < |rows[k]| && Left(rows[k], places[k], key) && path[k] == rows[k][places[k]]
        invariant Linked(rows)
        decreases |rows| - i
      {
        Neighbour(rows, i, j);
        while node.right != null && key > node.right.data.key
          invariant At(rows, i, j, node, key)
          invariant node.right == RightOf(rows[i], j) && (node.right != null ==> node.right.data != null)
          invariant Linked(rows) && update[..i] == path
          decreases |rows[i]| - j
        {
          RightIs(rows[i], j);
          node, j := node.right, j + 1;
          Neighbour(rows, i, j);
        }
        RightIs(rows[i], j);
        LeftHere(rows, i, j, key);
        update[i] := node;
        places, path := places + [j], path + [node];
        assert Linked(rows);
        if node.down == null {
          break;
        }
        j := Below(rows, i, j);
        node, i := node.down, i + 1;
      }
      if node.right != null && key == node.right.data.key {
        InBottom(rows, i, j + 1);
        return node.right.data, places;
      }
      return null, places;
    }

    /** `skip_list_get`. */
    method Get(key: int) returns (value: Ptr)
      requires Valid()
      ensures value == if key in m then m[key] else Null
    {
      var data := SearchData(key);
      return if data == null then Null else data.value;
    }

    /** `skip_list_contains`. */
    method Contains(key: int) returns (found: bool)
      requires Valid()
      ensures found <==> key in m
    {
      var data := SearchData(key);
      return data != null;
    }

    /** `skip_list_count`. */
    method Count() returns (n: nat)
      requires Valid()
      ensures n == |m|
    {
      return count;
    }

    /** `skip_list_put`; `height` is what `rand_level` returns, which may be any number from 1 on. */
    method Put(key: int, value: Ptr, height: nat) returns (old_value: Ptr)
      requires Valid() && height >= 1
      modifies this, NodesOf(rows), DataIn(rows)
      ensures Valid() && m == old(m)[key := value]
      ensures old_value == if key in old(m) then old(m)[key] else Null
      ensures level == if key in old(m) || height <= old(level) then old(level) else height
      ensures if key in old(m) then rows == old(rows) else Height(rows, key) == height && SameBut(old(rows), rows, key)
      ensures (forall n | n in NodesOf(rows) :: n in old(NodesOf(rows)) || fresh(n)) && (forall d | d in DataIn(rows) :: d in old(DataIn(rows)) || fresh(d))
    {
      hide Shape, Linked, LinkedBut, Holds, HasData, NodesOf, DataIn;
      TopLeft(rows);
      TopIsNode(rows);
      assert allocated(NodesOf(rows)) && allocated(DataIn(rows));
      var data := SearchData(key);
      if data != null {
        old_value := data.value;
        DataIsIn(rows, data);
        Store(rows, m, data, value);
        m := m[key := value];
      } else {
        old_value := Null;
        Raise(height);
        PutNew(key, value, height);
      }
    }

    /** What holds in between: there may be empty rows on top. */
    ghost predicate Listed()
      reads this, NodesOf(rows)`right, NodesOf(rows)`down, DataIn(rows)`value
    {
      && Shape(rows) && Linked(rows) && rows[0][0] == top
      && Holds(Bottom(), m)
      && level == |rows| && count == |m|
    }

    /** Makes as many rows as the new column has nodes. */
    method Raise(height: nat)
      requires Valid()
      modifies this, top`right, top`down
      ensures Listed() && m == old(m) && level == if height <= old(level) then old(level) else height
      ensures height <= old(level) ==> rows == old(rows)
      ensures forall k :: Height(rows, k) == Height(old(rows), k)
      ensures (forall n | n in NodesOf(rows) :: n in old(NodesOf(rows)) || fresh(n)) && DataIn(rows) == old(DataIn(rows))
    {
      hide Shape, Linked, LinkedBut, Holds, NodesOf, DataIn, Lifted;
      if height > level {
        ghost var before := rows;
        var gained;
        gained, rows := GainEmptyTopLines(rows, top, height - level);
        LiftedKeeps(before, rows, gained, m);
        LiftedData(before, rows, gained);
        forall k ensures Height(rows, k) == Height(before, k) {
          LiftedHeights(before, rows, gained, k);
        }
        level := level + gained;
      }
    }

    /** The part of `skip_list_put` for a key that is not in the list. */
    method PutNew(key: int, value: Ptr, height: nat)
      requires Listed() && 1 <= height <= level && key !in m
      requires height == level || |rows[0]| > 1
      modifies this, NodesOf(rows)
      ensures Valid() && m == old(m)[key := value] && level == old(level)
      ensures Height(rows, key) == height && SameBut(old(rows), rows, key)
      ensures (forall n | n in NodesOf(rows) :: n in old(NodesOf(rows)) || fresh(n)) && (forall d | d in DataIn(rows) :: d in old(DataIn(rows)) || fresh(d))
    {
      hide Shape, Linked, LinkedBut, Apart, Edged, Left, KeyOf, Holds, HasData, HasKey, NodesOf, DataIn, Path, Grown, Height, SameBut;
      BottomHas(rows, m, key);
      NowhereElse(rows, key);
      assert allocated(NodesOf(rows)) && allocated(DataIn(rows));
      var update := new Node[level](_ => top);
      var d;
      ghost var places;
      d, places := SearchDataUpdate(key, update);
      var data := new Data(key, value);
      ghost var column, before := [], rows;
      rows, column := AddKeyColumn(rows, data, update, level - height, places);
      GrownKeeps(before, rows, update[..], places, column, level - height, m, data);
      NewHeights(before, rows, places, column, level - height, data);
      count := count + 1;
      m := m[key := value];
    }

    /** `skip_list_remove`. */
    method Remove(key: int) returns (old_value: Ptr)
      requires Valid()
      modifies this, NodesOf(rows)
      ensures Valid() && m == old(m) - {key}
      ensures old_value == if key in old(m) then old(m)[key] else Null
      ensures key !in old(m) ==> rows == old(rows) && level == old(level)
      ensures SameBut(old(rows), rows, key)
      ensures NodesOf(rows) <= old(NodesOf(rows)) && DataIn(rows) <= old(DataIn(rows))
    {
      hide Shape, Linked, LinkedBut, Apart, Edged, KeyOf, Holds, HasData, HasKey, NodesOf, DataIn, Path;
      BottomHas(rows, m, key);
      assert allocated(NodesOf(rows)) && allocated(DataIn(rows));
      var update := new Node[level](_ => top);
      var data;
      ghost var places;
      data, places := SearchDataUpdate(key, update);
      old_value := Null;
      if data != null {
        DataHolds(Bottom(), m, data);
        old_value := data.value;
        RemoveFound(data, update, places);
      }
    }

    /** The part of `skip_list_remove` for a key that is in the list. */
    method RemoveFound(data: Data, update: array<Node>, ghost places: seq<nat>)
      requires Valid() && update.Length == level
      requires Path(rows, update[..], places, data.key) && HasKey(Bottom(), data.key) && HasData(Bottom(), data)
      modifies this, NodesOf(rows)
      ensures Valid() && m == old(m) - {data.key}
      ensures SameBut(old(rows), rows, data.key)
      ensures NodesOf(rows) <= old(NodesOf(rows)) && DataIn(rows) <= old(DataIn(rows))
    {
      hide Shape, Linked, LinkedBut, Apart, Edged, Left, KeyOf, Holds, HasData, HasKey, NodesOf, DataIn, Path, Shrunk, OneData;
      TopLeft(rows);
      OnlyData(rows, data);
      ghost var before := rows;
      rows := RemoveKeyColumn(rows, data.key, update, places, data);
      ShrunkKeeps(before, rows, places, m, data);
      ShrunkHeights(before, rows, places, data.key);
      count := count - 1;
      m := m - {data.key};
      TopLeft(rows);
      TopIsNode(rows);
      Lower();
    }

    /** Drops the rows that are empty, from the top. */
    method Lower()
      requires Listed()
      modifies this, top`right, top`down
      ensures Valid() && m == old(m)
      ensures forall k :: Height(rows, k) == Height(old(rows), k)
      ensures NodesOf(rows) <= old(NodesOf(rows)) && DataIn(rows) == old(DataIn(rows))
    {
      hide Shape, Linked, LinkedBut, Holds, NodesOf, DataIn, Lifted;
      ghost var before := rows;
      var cleaned;
      cleaned, rows := CleanEmptyTopLines(rows, top);
      LiftedKeeps(rows, before, cleaned, m);
      LiftedData(rows, before, cleaned);
      forall k ensures Height(rows, k) == Height(before, k) {
        LiftedHeights(rows, before, cleaned, k);
      }
      level := level - cleaned;
    }

    /** `skip_list_key_set`: the first keys, in order, as many as `length` asks for. */
    method KeySet(keys: array<int>, length: int) returns (i: nat)
      requires Valid() && length <= keys.Length
      modifies keys
      ensures i == if length < 0 then 0 else if length < |m| then length else |m|
      ensures FirstKeys(keys[..i], m) && keys[i..] == old(keys[i..])
    {
      hide Shape, Linked, LinkedBut, Holds, RightOf, KeyOf;
      assert allocated(NodesOf(rows)) && allocated(DataIn(rows));
      var left, node := BottomLeft();
      RowSize(rows, m);
      ghost var row := Bottom();
      ghost var s: seq<int> := [];
      i := 0;
      while i < length && node != null
        invariant |s| == i < |row| && (i == 0 || i <= length)
        invariant Linked(rows) && Holds(row, m) && node == RightOf(row, i)
        invariant keys[..i] == s && keys[i..] == old(keys[i..])
        invariant forall k | 0 <= k < i :: s[k] == KeyOf(row[k + 1])
      {
        RightIs(row, i);
        KeyAt(rows, m, i + 1);
        s := s + [node.data.key];
        keys[i] := node.data.key;
        i, node := i + 1, node.right;
      }
      RightIs(row, i);
      AreFirst(rows, s, m);
    }

    /** `skip_list_value_set`: the values of the first keys. */
    method ValueSet(values: array<Ptr>, length: int) returns (i: nat, ghost first: seq<int>)
      requires Valid() && length <= values.Length
      modifies values
      ensures i == if length < 0 then 0 else if length < |m| then length else |m|
      ensures |first| == i && FirstKeys(first, m)
      ensures forall k | 0 <= k < i :: first[k] in m && values[k] == m[first[k]]
      ensures values[i..] == old(values[i..])
    {
      hide Shape, Linked, LinkedBut, Holds, RightOf, KeyOf;
      assert allocated(NodesOf(rows)) && allocated(DataIn(rows));
      var left, node := BottomLeft();
      RowSize(rows, m);
      ghost var row := Bottom();
      ghost var s: seq<Ptr> := [];
      i, first := 0, [];
      while i < length && node != null
        invariant |s| == |first| == i < |row| && (i == 0 || i <= length)
        invariant Linked(rows) && Holds(row, m) && node == RightOf(row, i)
        invariant values[..i] == s && values[i..] == old(values[i..])
        invariant forall k | 0 <= k < i :: first[k] == KeyOf(row[k + 1])
        invariant forall k | 0 <= k < i :: first[k] in m && s[k] == m[first[k]]
      {
        RightIs(row, i);
        KeyAt(rows, m, i + 1);
        first, s := first + [node.data.key], s + [node.data.value];
        values[i] := node.data.value;
        i, node := i + 1, node.right;
      }
      RightIs(row, i);
      AreFirst(rows, first, m);
    }

    /** The way down to the bottom row. */
    method BottomLeft() returns (left: Node, node: Node?)
      requires Valid()
      ensures |rows| > 0 && |Bottom()| > 0 && left == Bottom()[0] && node == RightOf(Bottom(), 0)
    {
      hide Shape, Linked, LinkedBut, Holds, RightOf;
      TopLeft(rows);
      BottomPlace(rows, 0);
      left := top;
      ghost var i := 0;
      while left.down != null
        invariant i < |rows| && |rows[i]| > 0 && left == rows[i][0] && Linked(rows)
        decreases |rows| - i
      {
        ghost var l := Below(rows, i, 0);
        left, i := left.down, i + 1;
      }
      if i < |rows| - 1 {
        ghost var l := Below(rows, i, 0);
      }
      Neighbour(rows, i, 0);
      node := left.right;
    }
  }

  /** A new value for a key that the row has. */
  method Store(ghost rows: seq<Row>, ghost m: map<int, Ptr>, d: Data, value: Ptr)
    requires Shape(rows) && Holds(rows[|rows| - 1], m) && HasData(rows[|rows| - 1], d)
    modifies d`value
    ensures Holds(rows[|rows| - 1], m[d.key := value]) && d.value == value
  {
    ghost var row := rows[|rows| - 1];
    assert forall j | 0 < j < |row| && row[j].data != d :: row[j].data.key in m && m[row[j].data.key] == row[j].data.value && row[j].data.key != d.key;
    d.value := value;
    ghost var m' := m[d.key := value];
    forall k | k in m' ensures HasKey(row, k) {
      if k == d.key {
        assert HasData(row, d);
      }
    }
  }

  /** A place in a row that is left of the key. */
  ghost predicate At(rows: seq<Row>, i: nat, j: nat, node: Node, key: int) {
    i < |rows| && j < |rows[i]| && node == rows[i][j] && (j > 0 ==> KeyOf(node) < key)
  }

  lemma TopLeft(rows: seq<Row>)
    requires Shape(rows)
    ensures |rows| > 0 && |rows[0]| > 0 && |rows[|rows| - 1]| > 0
  {
  }

  /** The last row has nothing below it. */
  lemma BottomPlace(rows: seq<Row>, j: nat)
    requires Shape(rows) && Linked(rows) && j < |rows[|rows| - 1]|
    ensures rows[|rows| - 1][j].down == null && Edged(rows[|rows| - 1]) && Ascending(rows[|rows| - 1])
  {
  }

  lemma DataHolds(row: Row, m: map<int, Ptr>, d: Data)
    requires Holds(row, m) && HasData(row, d)
    ensures d.key in m && m[d.key] == d.value
  {
  }

  lemma RightIs(row: Row, j: nat)
    ensures RightOf(row, j) == null <==> j + 1 >= |row|
    ensures j + 1 < |row| ==> RightOf(row, j) == row[j + 1]
  {
  }

  lemma Neighbour(rows: seq<Row>, i: nat, j: nat)
    requires Shape(rows) && Linked(rows) && i < |rows| && j < |rows[i]|
    ensures rows[i][j].right == RightOf(rows[i], j)
    ensures j + 1 < |rows[i]| ==> rows[i][j + 1].data != null
    ensures rows[i][j].right != null ==> rows[i][j].right.data != null
  {
    assert RightOk(rows[i]) && Edged(rows[i]);
  }

  lemma InNext(rows: seq<Row>, i: nat, j: nat)
    requires Shape(rows) && i + 1 < |rows| && 0 < j < |rows[i]|
    ensures HasData(rows[i + 1], rows[i][j].data)
  {
    assert Within(rows[i], rows[i + 1]);
  }

  lemma PlaceOfData(row: Row, d: Data?) returns (l: nat)
    requires HasData(row, d)
    ensures 0 < l < |row| && row[l].data == d
  {
    l :| 0 < l < |row| && row[l].data == d;
  }

  /** Every column goes down to the bottom row. */
  lemma {:induction false} InBottom(rows: seq<Row>, i: nat, j: nat)
    requires Shape(rows) && i < |rows| && 0 < j < |rows[i]|
    ensures HasData(rows[|rows| - 1], rows[i][j].data)
    decreases |rows| - i
  {
    if i < |rows| - 1 {
      InNext(rows, i, j);
      var l := PlaceOfData(rows[i + 1], rows[i][j].data);
      InBottom(rows, i + 1, l);
    }
  }

  /** Where the node below a place is. */
  ghost function Below(rows: seq<Row>, i: nat, j: nat): (l: nat)
    reads NodesOf(rows)`right, NodesOf(rows)`down
    requires Shape(rows) && Linked(rows) && i < |rows| - 1 && j < |rows[i]|
    ensures l < |rows[i + 1]| && rows[i][j].down == rows[i + 1][l] && (l == 0 <==> j == 0)
    ensures rows[i + 1][l].data == rows[i][j].data
  {
    if j == 0 then 0 else
    assert DownOk(rows[i], rows[i + 1], null) && Edged(rows[i]);
    var l :| 0 <= l < |rows[i + 1]| && rows[i + 1][l] == rows[i][j].down;
    l
  }

  /** A key that fits between two neighbours of the bottom row is not in the map. */
  lemma NotBetween(row: Row, j: nat, key: int, m: map<int, Ptr>)
    requires Edged(row) && Ascending(row) && Holds(row, m) && j < |row|
    requires (j > 0 ==> KeyOf(row[j]) < key) && (j + 1 < |row| ==> key < KeyOf(row[j + 1]))
    ensures key !in m
  {
    assert key in m ==> HasKey(row, key);
  }

  lemma LeftHere(rows: seq<Row>, i: nat, j: nat, key: int)
    requires Shape(rows) && Linked(rows) && i < |rows| && j < |rows[i]| && (j > 0 ==> KeyOf(rows[i][j]) < key)
    requires j + 1 < |rows[i]| && rows[i][j + 1].data != null ==> key <= rows[i][j + 1].data.key
    ensures Left(rows[i], j, key)
    ensures rows[i][j].down == null <==> i == |rows| - 1
    ensures HasKey(rows[i], key) <==> j + 1 < |rows[i]| && KeyOf(rows[i][j + 1]) == key
  {
    Neighbour(rows, i, j);
    LeftFinds(rows[i], j, key);
    if i < |rows| - 1 {
      var l := Below(rows, i, j);
    } else {
      BottomPlace(rows, j);
    }
  }

  lemma DataIsIn(rows: seq<Row>, d: Data)
    requires Shape(rows) && HasData(rows[|rows| - 1], d)
    ensures d in DataIn(rows)
  {
    var row := rows[|rows| - 1];
    var j :| 0 < j < |row| && row[j].data == d;
    assert row[j] in NodesOf(rows);
  }

  lemma BottomHas(rows: seq<Row>, m: map<int, Ptr>, key: int)
    requires Shape(rows) && Holds(rows[|rows| - 1], m)
    ensures |rows| > 0 && (HasKey(rows[|rows| - 1], key) <==> key in m)
  {
  }

  /** A key that is not in the bottom row is in no row. */
  lemma NowhereElse(rows: seq<Row>, key: int)
    requires Shape(rows) && !HasKey(rows[|rows| - 1], key)
    ensures forall i | 0 <= i < |rows| :: !HasKey(rows[i], key)
  {
    forall i | 0 <= i < |rows| ensures !HasKey(rows[i], key) {
      if HasKey(rows[i], key) {
        KeyGoesDown(rows, i, key);
      }
    }
  }

  lemma KeyGoesDown(rows: seq<Row>, i: nat, key: int)
    requires Shape(rows) && i < |rows| && HasKey(rows[i], key)
    ensures HasKey(rows[|rows| - 1], key)
  {
    var bottom := rows[|rows| - 1];
    var j :| 0 < j < |rows[i]| && KeyOf(rows[i][j]) == key;
    InBottom(rows, i, j);
    var l :| 0 < l < |bottom| && bottom[l].data == rows[i][j].data;
    assert KeyOf(bottom[l]) == key;
  }

  lemma LiftedKeeps(rows: seq<Row>, after: seq<Row>, count: nat, m: map<int, Ptr>)
    requires Lifted(rows, after, count) && Shape(rows) && Shape(after)
    ensures |after| == |rows| + count && (Holds(after[|after| - 1], m) <==> Holds(rows[|rows| - 1], m))
  {
    var row, row' := rows[|rows| - 1], after[|after| - 1];
    assert after[(|rows| - 1) + count] == row';
    assert SameButLeft(row', row);
    forall j | 0 < j < |row| ensures row[j] == row'[j] {
      assert row[1..][j - 1] == row'[1..][j - 1];
    }
    forall k ensures HasKey(row', k) <==> HasKey(row, k) {}
  }

  lemma LiftedData(rows: seq<Row>, after: seq<Row>, count: nat)
    requires Lifted(rows, after, count) && Shape(rows) && Shape(after)
    ensures DataIn(after) == DataIn(rows)
  {
    forall i, j | 0 <= i < |rows| && 0 < j < |rows[i]| ensures rows[i][j] == after[i + count][j] && rows[i][j] in NodesOf(after) {
      assert SameButLeft(after[i + count], rows[i]);
      assert rows[i][1..][j - 1] == after[i + count][1..][j - 1];
    }
    forall i, j | count <= i < |after| && 0 < j < |after[i]| ensures after[i][j] in NodesOf(rows) {
      assert after[(i - count) + count][j] == rows[i - count][j];
    }
    forall d | d in DataIn(after) ensures d in DataIn(rows) {
      var n :| n in NodesOf(after) && n.data == d;
    }
    forall d | d in DataIn(rows) ensures d in DataIn(after) {
      var n :| n in NodesOf(rows) && n.data == d;
    }
  }

  lemma GrownKeeps(rows: seq<Row>, after: seq<Row>, update: seq<Node>, places: seq<nat>, column: seq<Node>, from: nat, m: map<int, Ptr>, d: Data)
    requires Shape(rows) && Shape(after) && Grown(rows, after, places, column, from, |rows|) && from < |rows|
    requires Holds(rows[|rows| - 1], m) && d.key !in m
    requires forall n | n in column :: n.data == d
    ensures Holds(after[|after| - 1], m[d.key := d.value])
    ensures |after| == |rows| && after[0][0] == rows[0][0]
    ensures if from == 0 then |after[0]| > 1 else |after[0]| == |rows[0]|
    ensures forall n | n in NodesOf(after) :: n in NodesOf(rows) || n in column
    ensures forall e | e in DataIn(after) :: e in DataIn(rows) || e == d
  {
    hide Ascending, Within, Apart, HasKey;
    var k := |rows| - 1;
    assert after[k] == InsertAt(rows[k], places[k] + 1, column[k - from]);
    HoldsMore(rows[k], places[k], column[k - from], d, m);
    GrownNodes(rows, after, places, column, from);
  }

  lemma NewHeights(rows: seq<Row>, after: seq<Row>, places: seq<nat>, column: seq<Node>, from: nat, d: Data)
    requires Grown(rows, after, places, column, from, |rows|)
    requires forall n | n in column :: n.data == d
    requires forall i | 0 <= i < |rows| :: !HasKey(rows[i], d.key)
    ensures Height(after, d.key) == |rows| - from && SameBut(rows, after, d.key)
  {
    hide Grown, HasKey, Height, SameBut;
    GrownHeights(rows, after, places, column, from, d.key);
  }

  lemma GrownNodes(rows: seq<Row>, after: seq<Row>, places: seq<nat>, column: seq<Node>, from: nat)
    requires Grown(rows, after, places, column, from, |rows|)
    ensures forall n | n in NodesOf(after) :: n in NodesOf(rows) || n in column
  {
    forall i, j | 0 <= i < |after| && 0 <= j < |after[i]| ensures after[i][j] in NodesOf(rows) || after[i][j] in column {
      if i >= from {
        var p := places[i] + 1;
        assert j == p ==> after[i][j] == column[i - from];
        assert j != p ==> after[i][j] == rows[i][if j < p then j else j - 1];
      }
    }
  }

  lemma HoldsMore(row: Row, p: nat, n: Node, d: Data, m: map<int, Ptr>)
    requires Edged(row) && Holds(row, m) && d.key !in m && n.data == d && p < |row|
    ensures Holds(InsertAt(row, p + 1, n), m[d.key := d.value])
  {
    var after, m' := InsertAt(row, p + 1, n), m[d.key := d.value];
    assert after[p + 1] == n;
    forall j | 0 < j < |after| ensures j == p + 1 || after[j] == row[if j <= p then j else j - 1] {}
    forall k | k in m' ensures HasKey(after, k) {
      if k != d.key {
        assert HasKey(row, k);
        var j :| 0 < j < |row| && KeyOf(row[j]) == k;
        assert after[if j <= p then j else j + 1] == row[j];
      } else {
        assert KeyOf(after[p + 1]) == k;
      }
    }
  }

  /** The data of a column is the only one with its key. */
  lemma OnlyData(rows: seq<Row>, d: Data)
    requires Shape(rows) && HasData(rows[|rows| - 1], d)
    ensures OneData(rows, d)
  {
    var bottom := rows[|rows| - 1];
    var k :| 0 < k < |bottom| && bottom[k].data == d;
    forall i, j | 0 <= i < |rows| && 0 < j < |rows[i]| && KeyOf(rows[i][j]) == d.key ensures rows[i][j].data == d {
      InBottom(rows, i, j);
      var l :| 0 < l < |bottom| && bottom[l].data == rows[i][j].data;
      assert KeyOf(bottom[l]) == KeyOf(bottom[k]);
    }
  }

  lemma HoldsLess(row: Row, p: nat, m: map<int, Ptr>, key: int)
    requires Edged(row) && Ascending(row) && Holds(row, m) && p + 1 < |row| && KeyOf(row[p + 1]) == key
    ensures Holds(RemoveAt(row, p + 1), m - {key}) && key in m
  {
    var after := RemoveAt(row, p + 1);
    forall j | 0 < j < |after| ensures after[j] == row[if j <= p then j else j + 1] && KeyOf(after[j]) != key {
      var k := if j <= p then j else j + 1;
      assert KeyOf(row[k]) != KeyOf(row[p + 1]);
    }
    forall k | k in m - {key} ensures HasKey(after, k) {
      assert HasKey(row, k);
      var j :| 0 < j < |row| && KeyOf(row[j]) == k;
      assert after[if j <= p then j else j - 1] == row[j];
    }
  }

  lemma NodesLess(rows: seq<Row>, after: seq<Row>, places: seq<nat>, key: int)
    requires Shrunk(rows, after, places, key, |rows|)
    ensures NodesOf(after) <= NodesOf(rows)
  {
    forall i, j | 0 <= i < |after| && 0 <= j < |after[i]| ensures after[i][j] in NodesOf(rows) {
      assert after[i] == WithoutNext(rows[i], places[i], key);
      if after[i] != rows[i] {
        assert after[i][j] == rows[i][if j <= places[i] then j else j + 1];
      }
    }
  }

  lemma ShrunkKeeps(rows: seq<Row>, after: seq<Row>, places: seq<nat>, m: map<int, Ptr>, d: Data)
    requires Shape(rows) && Shape(after) && Shrunk(rows, after, places, d.key, |rows|)
    requires Holds(rows[|rows| - 1], m)
    requires HasKey(rows[|rows| - 1], d.key) && forall i | 0 <= i < |rows| :: !HasKey(after[i], d.key)
    ensures Holds(after[|after| - 1], m - {d.key})
    ensures |after| == |rows| && after[0][0] == rows[0][0]
    ensures NodesOf(after) <= NodesOf(rows) && DataIn(after) <= DataIn(rows)
    ensures d.key in m
  {
    hide NodesOf, Apart, Within, Ascending, Holds;
    var k := |rows| - 1;
    assert after[k] == WithoutNext(rows[k], places[k], d.key);
    HoldsLess(rows[k], places[k], m, d.key);
    NodesLess(rows, after, places, d.key);
  }

  /** Keys in their order, with no key of the map missing before the last of them. */
  predicate FirstKeys(keys: seq<int>, m: map<int, Ptr>) {
    && (forall i, j | 0 <= i < j < |keys| :: keys[i] < keys[j])
    && (forall i | 0 <= i < |keys| :: keys[i] in m)
    && (forall k, i | k in m && 0 <= i < |keys| && k < keys[i] :: k in keys)
  }

  function KeysIn(row: Row): set<int> { set j | 0 < j < |row| :: KeyOf(row[j]) }

  lemma {:induction false} KeysCount(row: Row)
    requires |row| > 0 && Ascending(row)
    ensures |KeysIn(row)| == |row| - 1
  {
    var last := |row| - 1;
    if last > 0 {
      var less := row[..last];
      KeysCount(less);
      assert forall j | 0 < j < last :: less[j] == row[j];
      assert KeysIn(row) == KeysIn(less) + {KeyOf(row[last])};
    }
  }

  lemma RowSize(rows: seq<Row>, m: map<int, Ptr>)
    requires Shape(rows) && Holds(rows[|rows| - 1], m)
    ensures |rows| > 0 && |rows[|rows| - 1]| == |m| + 1
  {
    var row := rows[|rows| - 1];
    KeysCount(row);
    forall k | k in m ensures k in KeysIn(row) {
      assert HasKey(row, k);
    }
    assert KeysIn(row) == m.Keys;
  }

  lemma KeyAt(rows: seq<Row>, m: map<int, Ptr>, j: nat)
    requires Shape(rows) && Linked(rows) && Holds(rows[|rows| - 1], m) && 0 < j < |rows[|rows| - 1]|
    ensures var n := rows[|rows| - 1][j];
      && n.data != null && n.data.key == KeyOf(n) && n.data.key in m && m[n.data.key] == n.data.value
      && n.right == RightOf(rows[|rows| - 1], j)
  {
    Neighbour(rows, |rows| - 1, j);
  }

  lemma AreFirst(rows: seq<Row>, keys: seq<int>, m: map<int, Ptr>)
    requires Shape(rows) && Holds(rows[|rows| - 1], m) && |keys| < |rows[|rows| - 1]|
    requires forall k | 0 <= k < |keys| :: keys[k] == KeyOf(rows[|rows| - 1][k + 1])
    ensures FirstKeys(keys, m)
  {
    var row := rows[|rows| - 1];
    forall k, i | k in m && 0 <= i < |keys| && k < keys[i] ensures k in keys {
      assert HasKey(row, k);
      var j :| 0 < j < |row| && KeyOf(row[j]) == k;
      assert j < i + 1;
      assert keys[j - 1] == k;
    }
  }

  /** There is only one such beginning of each length. */
  lemma {:induction false} FirstKeysUnique(a: seq<int>, b: seq<int>, m: map<int, Ptr>)
    requires FirstKeys(a, m) && FirstKeys(b, m) && |a| == |b|
    ensures a == b
  {
    hide FirstKeys;
    if |a| > 0 {
      var last := |a| - 1;
      ButLast(a, m);
      ButLast(b, m);
      FirstKeysUnique(a[..last], b[..last], m);
      NoLessThan(a, b, m);
      NoLessThan(b, a, m);
      assert a == a[..last] + [a[last]] && b == b[..last] + [b[last]];
    }
  }

  lemma NoLessThan(a: seq<int>, b: seq<int>, m: map<int, Ptr>)
    requires FirstKeys(a, m) && FirstKeys(b, m) && |a| == |b| > 0 && a[..|a| - 1] == b[..|b| - 1]
    ensures a[|a| - 1] >= b[|a| - 1]
  {
    var last := |a| - 1;
    var k := a[last];
    assert forall j | 0 <= j < last :: a[j] < k && b[j] == a[..last][j];
    assert k in m && (k < b[last] ==> k in b);
  }

  lemma ButLast(a: seq<int>, m: map<int, Ptr>)
    requires FirstKeys(a, m) && |a| > 0
    ensures FirstKeys(a[..|a| - 1], m)
  {
    var less := a[..|a| - 1];
    forall k, i | k in m && 0 <= i < |less| && k < less[i] ensures k in less {
      assert k in a;
    }
  }

  /** A column fills the rows from some row down to the bottom one. */
  lemma {:induction false} ColumnIsSolid(rows: seq<Row>, key: int, i: nat)
    requires Shape(rows) && i < |rows|
    ensures HasKey(rows[i], key) <==> i >= |rows| - Height(rows, key)
  {
    hide Shape, HasKey;
    if |rows| > 1 {
      LoweredShape(rows);
      if HasKey(rows[0], key) {
        KeyInNext(rows, key);
        ColumnIsSolid(rows[1..], key, 0);
      }
      if i > 0 {
        ColumnIsSolid(rows[1..], key, i - 1);
      }
    }
  }

  lemma KeyInNext(rows: seq<Row>, key: int)
    requires Shape(rows) && |rows| > 1 && HasKey(rows[0], key)
    ensures HasKey(rows[1], key)
  {
    var j :| 0 < j < |rows[0]| && KeyOf(rows[0][j]) == key;
    InNext(rows, 0, j);
    var l := PlaceOfData(rows[1], rows[0][j].data);
    assert KeyOf(rows[1][l]) == key;
  }

  /** `level` is the height of the tallest column, or 1 if there is none. */
  lemma LevelIsTallest(list: SkipList)
    requires list.Valid()
    ensures list.level >= 1
    ensures forall key | key in list.m :: 1 <= Height(list.rows, key) <= list.level
    ensures if list.m == map[] then list.level == 1 else exists key | key in list.m :: Height(list.rows, key) == list.level
  {
    hide Shape, Linked, Holds, HasKey, Height;
    var rows, m := list.rows, list.m;
    TopLeft(rows);
    forall key | key in m ensures 1 <= Height(rows, key) <= |rows| {
      BottomHas(rows, m, key);
      ColumnIsSolid(rows, key, |rows| - 1);
    }
    RowSize(rows, m);
    if |rows[0]| > 1 {
      var key := KeyOf(rows[0][1]);
      HasIt(rows[0]);
      ColumnIsSolid(rows, key, 0);
      KeyGoesDown(rows, 0, key);
      BottomHas(rows, m, key);
      assert key in m && Height(rows, key) == list.level;
    }
  }

  lemma HasIt(row: Row)
    requires |row| > 1
    ensures HasKey(row, KeyOf(row[1]))
  {
  }

  /** Going down from a node leads to the node of the same column in the row below, with the same data. */
  lemma ColumnSharesData(list: SkipList, i: nat, j: nat)
    requires list.Valid() && i < |list.rows| - 1 && 0 < j < |list.rows[i]|
    ensures var n := list.rows[i][j]; n.down != null && n.down in list.rows[i + 1] && n.down.data == n.data && n.data != null
  {
    hide Shape, Linked, Holds;
    var l := Below(list.rows, i, j);
    EdgedAt(list.rows, i);
  }

  lemma EdgedAt(rows: seq<Row>, i: nat)
    requires Shape(rows) && i < |rows|
    ensures Edged(rows[i])
  {
  }
}
