/** The columns of a skip list: adding and removing one, and the empty rows above the tallest. */
module SkipListColumns {
  import opened SkipListNodes
  import opened SkipListLinks

  /** Place `p` is the last one left of the key. */
  predicate Left(row: Row, p: nat, key: int) {
    p < |row| && (p > 0 ==> KeyOf(row[p]) < key) && (p + 1 < |row| ==> key <= KeyOf(row[p + 1]))
  }

  /** The nodes of `update` are left of the key, one in each row. */
  ghost predicate Path(rows: seq<Row>, update: seq<Node>, places: seq<nat>, key: int) {
    && |update| == |places| == |rows|
    && forall i | 0 <= i < |rows| :: Left(rows[i], places[i], key) && update[i] == rows[i][places[i]]
  }

  /** A row has the key exactly when it is just right of the last place left of it. */
  lemma LeftFinds(row: Row, p: nat, key: int)
    requires Edged(row) && Ascending(row) && Left(row, p, key)
    ensures HasKey(row, key) <==> p + 1 < |row| && KeyOf(row[p + 1]) == key
  {
  }

  lemma RowInserted(row: Row, p: nat, n: Node, d: Data)
    requires Edged(row) && Ascending(row) && Left(row, p, d.key) && !HasKey(row, d.key) && n.data == d
    ensures Edged(InsertAt(row, p + 1, n)) && Ascending(InsertAt(row, p + 1, n))
  {
    var after := InsertAt(row, p + 1, n);
    forall j, k | 0 < j < k < |after| ensures KeyOf(after[j]) < KeyOf(after[k]) {
      assert after[j] == if j <= p then row[j] else if j == p + 1 then n else row[j - 1];
      assert after[k] == if k <= p then row[k] else if k == p + 1 then n else row[k - 1];
    }
  }

  lemma HasInserted(row: Row, p: nat, n: Node, d: Data?)
    requires p < |row|
    ensures HasData(InsertAt(row, p + 1, n), d) <==> n.data == d || HasData(row, d)
  {
    var after := InsertAt(row, p + 1, n);
    assert after[p + 1] == n;
    forall j | 0 < j < |row| ensures row[j] == after[if j <= p then j else j + 1] {}
  }

  lemma WithinInserted(row: Row, below: Row, p: nat, n: Node)
    requires Within(row, below) && p < |below|
    ensures Within(row, InsertAt(below, p + 1, n))
  {
    forall j | 0 < j < |row| ensures HasData(InsertAt(below, p + 1, n), row[j].data) {
      HasInserted(below, p, n, row[j].data);
    }
  }

  lemma WithinBoth(row: Row, below: Row, p: nat, q: nat, n: Node, n': Node)
    requires Within(row, below) && p < |row| && q < |below| && n.data == n'.data
    ensures Within(InsertAt(row, p + 1, n), InsertAt(below, q + 1, n'))
  {
    var after := InsertAt(row, p + 1, n);
    forall j | 0 < j < |after| ensures HasData(InsertAt(below, q + 1, n'), after[j].data) {
      HasInserted(below, q, n', after[j].data);
      assert after[j] == if j <= p then row[j] else if j == p + 1 then n else row[j - 1];
    }
  }

  lemma RowRemoved(row: Row, p: nat)
    requires Edged(row) && Ascending(row) && 0 < p < |row|
    ensures Edged(RemoveAt(row, p)) && Ascending(RemoveAt(row, p))
    ensures !HasKey(RemoveAt(row, p), KeyOf(row[p])) && !HasData(RemoveAt(row, p), row[p].data)
    ensures forall d | HasData(row, d) && d != row[p].data :: HasData(RemoveAt(row, p), d)
    ensures forall d | HasData(RemoveAt(row, p), d) :: HasData(row, d)
  {
    var after := RemoveAt(row, p);
    forall j | 0 < j < |after| ensures after[j] == row[if j < p then j else j + 1] {}
    forall j | 0 < j < |row| && j != p ensures row[j] == after[if j < p then j else j - 1] {}
  }

  lemma WithinRemoved(row: Row, below: Row, p: nat)
    requires Within(row, below) && 0 < p < |row|
    ensures Within(RemoveAt(row, p), below)
  {
    var after := RemoveAt(row, p);
    forall j | 0 < j < |after| ensures HasData(below, after[j].data) {
      assert after[j] == row[if j < p then j else j + 1];
    }
  }

  lemma WithinFewer(row: Row, below: Row, p: nat)
    requires Within(row, below) && Edged(below) && Ascending(below) && 0 < p < |below| && !HasData(row, below[p].data)
    ensures Within(row, RemoveAt(below, p))
  {
    RowRemoved(below, p);
  }

  /** The rows with the nodes of a new column in those of them that are numbered from `from` up to `upto`. */
  ghost predicate Grown(rows: seq<Row>, after: seq<Row>, places: seq<nat>, column: seq<Node>, from: nat, upto: nat) {
    && |places| == |rows| == |after| && from <= upto <= |rows| && |column| == upto - from
    && (forall i | 0 <= i < |rows| :: places[i] < |rows[i]|)
    && (forall i | 0 <= i < from :: after[i] == rows[i])
    && (forall i | upto <= i < |rows| :: after[i] == rows[i])
    && (forall i | from <= i < upto :: after[i] == InsertAt(rows[i], places[i] + 1, column[i - from]))
  }

  lemma GrownShape(rows: seq<Row>, after: seq<Row>, update: seq<Node>, places: seq<nat>, column: seq<Node>, from: nat, d: Data)
    requires Shape(rows) && Path(rows, update, places, d.key) && Apart(after)
    requires Grown(rows, after, places, column, from, |rows|)
    requires forall n | n in column :: n.data == d
    requires forall i | from <= i < |rows| :: !HasKey(rows[i], d.key)
    ensures Shape(after)
  {
    forall i | 0 <= i < |after| ensures Edged(after[i]) && Ascending(after[i]) {
      if i >= from {
        RowInserted(rows[i], places[i], column[i - from], d);
      }
    }
    forall i | 0 <= i < |after| - 1 ensures Within(after[i], after[i + 1]) {
      if i >= from {
        WithinBoth(rows[i], rows[i + 1], places[i], places[i + 1], column[i - from], column[i + 1 - from]);
      } else if i + 1 == from {
        WithinInserted(rows[i], rows[i + 1], places[i + 1], column[0]);
      }
    }
  }

  lemma GrownStep(rows: seq<Row>, after: seq<Row>, places: seq<nat>, column: seq<Node>, from: nat, upto: nat, n: Node)
    requires Grown(rows, after, places, column, from, upto) && upto < |rows|
    ensures Grown(rows, after[upto := InsertAt(after[upto], places[upto] + 1, n)], places, column + [n], from, upto + 1)
  {
  }

  /** What `InsertNode` asks for the next row of the column. */
  lemma GrownNext(rows: seq<Row>, after: seq<Row>, update: seq<Node>, places: seq<nat>, column: seq<Node>, from: nat, upto: nat, key: int)
    requires Grown(rows, after, places, column, from, upto) && upto < |rows| && Path(rows, update, places, key)
    ensures places[upto] < |after[upto]| && update[upto] == after[upto][places[upto]] && update[upto] in NodesOf(rows)
  {
    assert rows[upto][places[upto]] in NodesOf(rows);
  }

  /** What is to the right of the nodes of `update`. */
  lemma GrownRight(rows: seq<Row>, after: seq<Row>, update: seq<Node>, places: seq<nat>, column: seq<Node>, from: nat, d: Data, i: nat)
    requires Grown(rows, after, places, column, from, |rows|) && from <= i < |rows| && Path(rows, update, places, d.key)
    requires LinkedBut(after, d)
    ensures update[i].right == column[i - from]
    ensures places[i] + 1 < |after[i]| && after[i][places[i] + 1] == column[i - from]
  {
    var row := after[i];
    assert RightOk(row) && row[places[i]] == update[i] && row[places[i] + 1] == column[i - from];
    assert row[places[i]].right == row[places[i] + 1];
  }

  lemma KeyIsThere(row: Row, j: nat, d: Data)
    requires 0 < j < |row| && row[j].data == d
    ensures HasKey(row, d.key)
  {
    assert KeyOf(row[j]) == d.key;
  }

  lemma OnlyInserted(row: Row, p: nat, n: Node, d: Data, j: nat)
    requires p < |row| && 0 < j <= |row| && InsertAt(row, p + 1, n)[j].data == d
    ensures j == p + 1 || HasKey(row, d.key)
  {
    if j != p + 1 {
      assert InsertAt(row, p + 1, n)[j] == row[if j <= p then j else j - 1];
      KeyIsThere(row, if j <= p then j else j - 1, d);
    }
  }

  lemma GrownLinked(rows: seq<Row>, after: seq<Row>, places: seq<nat>, column: seq<Node>, from: nat, d: Data)
    requires Grown(rows, after, places, column, from, |rows|) && from < |rows| && LinkedBut(after, d)
    requires forall n | n in column :: n.data == d
    requires forall i | 0 <= i < |rows| :: !HasKey(rows[i], d.key)
    requires forall k | 0 <= k < |column| - 1 :: column[k].down == column[k + 1]
    ensures Linked(after)
  {
    forall i, j | 0 <= i < |after| - 1 && 0 < j < |after[i]| && after[i][j].data == d
      ensures after[i][j].down != null && after[i][j].down in after[i + 1] && after[i][j].down.data == d
    {
      var row, p := rows[i], places[i];
      if i < from {
        KeyIsThere(row, j, d);
      } else {
        OnlyInserted(row, p, column[i - from], d, j);
        assert after[i + 1][places[i + 1] + 1] == column[i + 1 - from];
      }
    }
    ColumnLinked(after, d);
  }

  lemma LastDown(rows: seq<Row>, j: nat, d: Data)
    requires |rows| > 0 && LinkedBut(rows, d) && j < |rows[|rows| - 1]|
    ensures rows[|rows| - 1][j].down == null
  {
  }

  /** `add_key_column`: a node in each of the rows from `from` on, then the links down between them. */
  method AddKeyColumn(ghost rows: seq<Row>, data: Data, update: array<Node>, from: nat, ghost places: seq<nat>)
    returns (ghost after: seq<Row>, ghost column: seq<Node>)
    requires from < update.Length == |rows| && Shape(rows) && Linked(rows)
    requires Path(rows, update[..], places, data.key)
    requires forall i | 0 <= i < |rows| :: !HasKey(rows[i], data.key)
    modifies NodesOf(rows)`right
    ensures Grown(rows, after, places, column, from, |rows|)
    ensures forall n | n in column :: fresh(n) && n.data == data
    ensures Shape(after) && Linked(after)
  {
    hide Shape, LinkedBut, Path, Grown, Apart, InsertAt, NodesOf;
    after, column := rows, [];
    PathStart(rows, update[..], places, data, from);
    for i := from to update.Length
      invariant Grown(rows, after, places, column, from, i) && |column| == i - from && |after| == |rows|
      invariant forall n | n in column :: fresh(n) && n.data == data
      invariant forall j, k | 0 <= j < k < |column| :: column[j] != column[k]
      invariant Apart(after) && LinkedBut(after, data)
    {
      GrownNext(rows, after, update[..], places, column, from, i, data.key);
      var tmp;
      ghost var before := after;
      tmp, after := InsertNode(after, update[i], data, i, places[i]);
      GrownStep(rows, before, places, column, from, i, tmp);
      column := column + [tmp];
    }
    for i := from to update.Length - 1
      invariant Apart(after) && LinkedBut(after, data)
      invariant forall k | 0 <= k < i - from :: column[k].down == column[k + 1]
    {
      GrownRight(rows, after, update[..], places, column, from, data, i);
      GrownRight(rows, after, update[..], places, column, from, data, i + 1);
      assert column[i - from] in column;
      LinkDown(after, i, places[i] + 1, update[i].right, update[i + 1].right);
    }
    GrownRight(rows, after, update[..], places, column, from, data, update.Length - 1);
    LastDown(after, places[update.Length - 1] + 1, data);
    assert column[|column| - 1] in column;
    update[update.Length - 1].right.down := null;
    GrownLinked(rows, after, places, column, from, data);
    GrownShape(rows, after, update[..], places, column, from, data);
  }

  lemma PathStart(rows: seq<Row>, update: seq<Node>, places: seq<nat>, d: Data, from: nat)
    requires Shape(rows) && Linked(rows) && Path(rows, update, places, d.key) && from < |rows|
    ensures Apart(rows) && LinkedBut(rows, d) && Grown(rows, rows, places, [], from, from)
  {
  }

  /** The rows without the column of the key, in the first `upto` of them. */
  ghost predicate Shrunk(rows: seq<Row>, after: seq<Row>, places: seq<nat>, key: int, upto: nat) {
    && |places| == |rows| == |after| && upto <= |rows|
    && (forall i | 0 <= i < |rows| :: places[i] < |rows[i]|)
    && (forall i | upto <= i < |rows| :: after[i] == rows[i])
    && (forall i | 0 <= i < upto :: after[i] == WithoutNext(rows[i], places[i], key))
  }

  function WithoutNext(row: Row, p: nat, key: int): Row
    requires p < |row|
  {
    if p + 1 < |row| && KeyOf(row[p + 1]) == key then RemoveAt(row, p + 1) else row
  }

  /** Equal keys have equal data, in whichever row they are. */
  ghost predicate OneData(rows: seq<Row>, d: Data) {
    forall i, j | 0 <= i < |rows| && 0 < j < |rows[i]| && KeyOf(rows[i][j]) == d.key :: rows[i][j].data == d
  }

  lemma ShrunkShape(rows: seq<Row>, p: nat, r: nat, d: Data)
    requires Shape(rows) && r < |rows| && p + 1 < |rows[r]| && rows[r][p + 1].data == d
    requires r > 0 ==> !HasData(rows[r - 1], d)
    ensures var after := rows[r := RemoveAt(rows[r], p + 1)]; Shape(after) && !HasKey(after[r], d.key) && !HasData(after[r], d)
  {
    RowRemoved(rows[r], p + 1);
    ApartRemove(rows, r, p + 1);
    if r > 0 {
      WithinFewer(rows[r - 1], rows[r], p + 1);
    }
    if r < |rows| - 1 {
      WithinRemoved(rows[r], rows[r + 1], p + 1);
    }
  }

  /** What the next row of the column is like. */
  lemma ShrunkNext(rows: seq<Row>, after: seq<Row>, update: seq<Node>, places: seq<nat>, d: Data, upto: nat)
    requires Shrunk(rows, after, places, d.key, upto) && upto < |rows| && Path(rows, update, places, d.key)
    requires Shape(after) && Linked(after) && OneData(rows, d)
    ensures update[upto] in NodesOf(rows) && after[upto] == rows[upto] && Apart(after)
    ensures upto > 0 ==> Edged(after[upto - 1])
    ensures var row, p := after[upto], places[upto];
      && p < |row| && update[upto] == row[p] && Edged(row)
      && (update[upto].right != null <==> p + 1 < |row|)
      && (p + 1 < |row| ==> update[upto].right == row[p + 1] && update[upto].right.data != null)
      && (p + 1 < |row| && KeyOf(row[p + 1]) == d.key ==> row[p + 1].data == d)
      && (HasKey(row, d.key) <==> p + 1 < |row| && KeyOf(row[p + 1]) == d.key)
      && (HasData(row, d) ==> HasKey(row, d.key))
  {
    hide Shape, Linked, LinkedBut, Apart, Path, Shrunk, OneData, NodesOf, Edged, Ascending, Left, HasKey, KeyOf;
    ShrunkPlace(rows, after, update, places, d.key, upto);
    var row, p := rows[upto], places[upto];
    InNodes(rows, upto, p);
    RowFacts(after, upto, p);
    if upto > 0 {
      RowFacts(after, upto - 1, 0);
    }
    OneDataAt(rows, d, upto);
    LeftFinds(row, p, d.key);
    if HasData(row, d) {
      var j :| 0 < j < |row| && row[j].data == d;
      KeyIsThere(row, j, d);
    }
  }

  lemma ShrunkPlace(rows: seq<Row>, after: seq<Row>, update: seq<Node>, places: seq<nat>, key: int, upto: nat)
    requires Shrunk(rows, after, places, key, upto) && upto < |rows| && Path(rows, update, places, key)
    ensures |after| == |places| == |update| == |rows| && after[upto] == rows[upto] && Left(rows[upto], places[upto], key)
    ensures places[upto] < |rows[upto]| && update[upto] == rows[upto][places[upto]]
  {
    hide KeyOf, WithoutNext;
  }

  lemma InNodes(rows: seq<Row>, i: nat, j: nat)
    requires i < |rows| && j < |rows[i]|
    ensures rows[i][j] in NodesOf(rows)
  {
  }

  lemma OneDataAt(rows: seq<Row>, d: Data, i: nat)
    requires OneData(rows, d) && i < |rows|
    ensures forall j | 0 < j < |rows[i]| && KeyOf(rows[i][j]) == d.key :: rows[i][j].data == d
  {
  }

  lemma RowFacts(rows: seq<Row>, i: nat, p: nat)
    requires Shape(rows) && Linked(rows) && i < |rows|
    ensures Edged(rows[i]) && Ascending(rows[i]) && Apart(rows)
    ensures p < |rows[i]| ==> (rows[i][p].right != null <==> p + 1 < |rows[i]|)
    ensures p + 1 < |rows[i]| ==> rows[i][p].right == rows[i][p + 1] && rows[i][p + 1].data != null
  {
    assert RightOk(rows[i]) && Edged(rows[i]);
  }

  lemma ShrunkStep(rows: seq<Row>, after: seq<Row>, places: seq<nat>, key: int, upto: nat)
    requires Shrunk(rows, after, places, key, upto) && upto < |rows|
    ensures Shrunk(rows, after[upto := WithoutNext(after[upto], places[upto], key)], places, key, upto + 1)
  {
  }

  /** `remove_key_column`: from the top row down, the node of the key goes out of each row that has it. */
  method RemoveKeyColumn(ghost rows: seq<Row>, key: int, update: array<Node>, ghost places: seq<nat>, ghost d: Data)
    returns (ghost after: seq<Row>)
    requires update.Length == |rows| && Shape(rows) && Linked(rows) && d.key == key
    requires Path(rows, update[..], places, key) && OneData(rows, d)
    modifies NodesOf(rows)`right
    ensures Shrunk(rows, after, places, key, |rows|)
    ensures Shape(after) && Linked(after)
    ensures forall i | 0 <= i < |rows| :: !HasKey(after[i], key)
  {
    hide Shape, LinkedBut, Linked, Path, Shrunk, Apart, RemoveAt, NodesOf, OneData;
    after := rows;
    ShrunkStart(rows, update[..], places, key);
    for i := 0 to update.Length
      invariant Shrunk(rows, after, places, key, i) && |after| == |rows|
      invariant Shape(after) && Linked(after)
      invariant i > 0 ==> !HasData(after[i - 1], d)
      invariant forall r | 0 <= r < i :: !HasKey(after[r], key)
    {
      ShrunkNext(rows, after, update[..], places, d, i);
      ShrunkStep(rows, after, places, key, i);
      assert after[i := after[i]] == after;
      var right := update[i].right;
      if right != null && right.data.key == key {
        ShrunkShape(after, places[i], i, d);
        after := RemoveNode(after, update[i], i, places[i]);
      }
    }
  }

  lemma ShrunkStart(rows: seq<Row>, update: seq<Node>, places: seq<nat>, key: int)
    requires Path(rows, update, places, key)
    ensures Shrunk(rows, rows, places, key, 0)
  {
  }

  /** The rows with another node at the left edge of the top row. */
  function Handed(rows: seq<Row>, n: Node): seq<Row>
    requires |rows| > 0 && |rows[0]| > 0
  {
    rows[0 := rows[0][0 := n]]
  }

  lemma HandedShape(rows: seq<Row>, n: Node)
    requires Shape(rows) && n !in NodesOf(rows) && n.data == null
    ensures Shape(Handed(rows, n)) && rows[0][0] !in NodesOf(Handed(rows, n))
    ensures NodesOf(Handed(rows, n)) == NodesOf(rows) - {rows[0][0]} + {n}
  {
    var after := Handed(rows, n);
    HandedApart(rows, n);
    forall i | 0 <= i < |after| - 1 ensures Within(after[i], after[i + 1]) {
      assert Within(rows[i], rows[i + 1]);
      assert i == 0 ==> forall j | 0 < j < |after[0]| :: after[0][j] == rows[0][j];
    }
  }

  lemma HandedApart(rows: seq<Row>, n: Node)
    requires Apart(rows) && |rows| > 0 && |rows[0]| > 0 && n !in NodesOf(rows)
    ensures Apart(Handed(rows, n)) && rows[0][0] !in NodesOf(Handed(rows, n))
    ensures NodesOf(Handed(rows, n)) == NodesOf(rows) - {rows[0][0]} + {n}
  {
    var after := Handed(rows, n);
    forall i, j | 0 <= i < |after| && 0 <= j < |after[i]| && !(i == 0 && j == 0) ensures after[i][j] == rows[i][j] && after[i][j] in NodesOf(rows) {}
    forall i, j | 0 <= i < |rows| && 0 <= j < |rows[i]| && !(i == 0 && j == 0) ensures rows[i][j] in NodesOf(after) {
      assert rows[i][j] == after[i][j];
    }
    assert after[0][0] == n;
  }

  lemma HandedRow(row: Row, below: Row, n: Node)
    requires |row| > 0 && n.right == row[0].right && n.down == row[0].down
    ensures RightOk(row) ==> RightOk(row[0 := n])
    ensures DownOk(row, below, null) ==> DownOk(row[0 := n], below, null)
    ensures BottomOk(row) ==> BottomOk(row[0 := n])
  {
    assert forall j | 0 < j < |row| :: row[0 := n][j] == row[j];
  }

  lemma HandedLinked(rows: seq<Row>, n: Node)
    requires Shape(rows) && Linked(rows)
    requires n.right == rows[0][0].right && n.down == rows[0][0].down
    ensures Linked(Handed(rows, n))
  {
    hide RightOk, DownOk, BottomOk, Ascending, Within, Apart;
    HandedRow(rows[0], if |rows| > 1 then rows[1] else [], n);
  }

  function Raised(rows: seq<Row>, top: Node): seq<Row> { [[top]] + rows }

  lemma RaisedShape(rows: seq<Row>, top: Node)
    requires Shape(rows) && top !in NodesOf(rows) && top.data == null
    ensures Shape(Raised(rows, top)) && NodesOf(Raised(rows, top)) == NodesOf(rows) + {top}
  {
    var after := Raised(rows, top);
    assert forall i | 0 < i < |after| :: after[i] == rows[i - 1];
    RaisedApart(rows, top);
    RaisedWithin(rows, top);
  }

  lemma RaisedApart(rows: seq<Row>, top: Node)
    requires Apart(rows) && top !in NodesOf(rows)
    ensures Apart(Raised(rows, top)) && NodesOf(Raised(rows, top)) == NodesOf(rows) + {top}
  {
    var after := Raised(rows, top);
    forall i, j | 0 < i < |after| && 0 <= j < |after[i]| ensures after[i][j] == rows[i - 1][j] && after[i][j] in NodesOf(rows) {}
    forall i, j | 0 <= i < |rows| && 0 <= j < |rows[i]| ensures rows[i][j] in NodesOf(after) {
      assert rows[i][j] == after[i + 1][j];
    }
    assert top == after[0][0];
  }

  lemma RaisedWithin(rows: seq<Row>, top: Node)
    requires Shape(rows)
    ensures var after := Raised(rows, top); forall i | 0 <= i < |after| - 1 :: Within(after[i], after[i + 1])
  {
    var after := Raised(rows, top);
    forall i | 0 <= i < |after| - 1 ensures Within(after[i], after[i + 1]) {
      assert i > 0 ==> Within(rows[i - 1], rows[i]);
    }
  }

  lemma RaisedLinked(rows: seq<Row>, top: Node)
    requires Shape(rows) && Linked(rows) && top.right == null && top.down == rows[0][0]
    ensures Linked(Raised(rows, top))
  {
    var after := Raised(rows, top);
    assert forall i | 0 < i < |after| :: after[i] == rows[i - 1];
    assert RightOk(after[0]) && DownOk(after[0], after[1], null);
    forall i | 0 <= i < |after| ensures RightOk(after[i]) {
      assert i > 0 ==> RightOk(rows[i - 1]);
    }
    forall i | 0 <= i < |after| - 1 ensures DownOk(after[i], after[i + 1], null) {
      assert i > 0 ==> DownOk(rows[i - 1], rows[i], null);
    }
  }

  lemma LoweredShape(rows: seq<Row>)
    requires Shape(rows) && |rows| > 1
    ensures Shape(rows[1..]) && rows[0][0] !in NodesOf(rows[1..]) && rows[0][0].data == null && NodesOf(rows[1..]) <= NodesOf(rows)
  {
    var after := rows[1..];
    assert forall i | 0 <= i < |after| :: after[i] == rows[i + 1];
    forall i | 0 <= i < |after| - 1 ensures Within(after[i], after[i + 1]) {
      assert Within(rows[i + 1], rows[i + 2]);
    }
  }

  lemma LoweredLinked(rows: seq<Row>)
    requires Linked(rows) && |rows| > 1
    ensures Linked(rows[1..])
  {
    var after := rows[1..];
    assert forall i | 0 <= i < |after| :: after[i] == rows[i + 1];
    forall i | 0 <= i < |after| - 1 ensures DownOk(after[i], after[i + 1], null) {
      assert DownOk(rows[i + 1], rows[i + 2], null);
    }
  }

  predicate SameButLeft(row: Row, other: Row) { |row| == |other| > 0 && row[1..] == other[1..] }

  /** Empty rows on top of the others. */
  ghost predicate Lifted(rows: seq<Row>, after: seq<Row>, count: nat) {
    && |after| == |rows| + count
    && (forall i | 0 <= i < count :: |after[i]| == 1)
    && (forall i | 0 <= i < |rows| :: SameButLeft(after[i + count], rows[i]))
  }

  /** `gain_empty_top_lines`: each time a new node takes over the links of `top`, and goes below it. */
  method GainEmptyTopLines(ghost rows: seq<Row>, top: Node, count: nat) returns (i: nat, ghost after: seq<Row>)
    requires Shape(rows) && Linked(rows) && rows[0][0] == top
    modifies top`right, top`down
    ensures i == count && Lifted(rows, after, count)
    ensures Shape(after) && Linked(after) && after[0][0] == top
    ensures fresh(NodesOf(after) - NodesOf(rows))
  {
    hide Shape, Linked, Lifted, Handed, Raised;
    i, after := 0, rows;
    LiftedNone(rows);
    while i < count
      invariant i <= count && Lifted(rows, after, i)
      invariant Shape(after) && Linked(after) && |after| > 0 && |after[0]| > 0 && after[0][0] == top
      invariant fresh(NodesOf(after) - NodesOf(rows))
    {
      var tmp := new Node(null);
      ghost var under := Handed(after, tmp);
      LiftedMore(rows, after, i, tmp, top);
      HandedShape(after, tmp);
      tmp.right := top.right;
      tmp.down := top.down;
      HandedLinked(after, tmp);
      RaisedShape(under, top);
      top.right := null;
      top.down := tmp;
      RaisedLinked(under, top);
      after := Raised(under, top);
      i := i + 1;
    }
  }

  lemma LiftedNone(rows: seq<Row>)
    requires Shape(rows)
    ensures Lifted(rows, rows, 0) && |rows| > 0 && |rows[0]| > 0
  {
  }

  lemma LiftedMore(rows: seq<Row>, after: seq<Row>, count: nat, tmp: Node, top: Node)
    requires Lifted(rows, after, count) && Shape(after) && after[0][0] == top
    ensures |after| > 0 && |after[0]| > 0 && top.data == null
    ensures var under := Handed(after, tmp); var more := Raised(under, top);
      && |under| > 0 && |under[0]| > 0 && under[0][0] == tmp
      && Lifted(rows, more, count + 1) && |more| > 0 && |more[0]| > 0 && more[0][0] == top
  {
    var under := Handed(after, tmp);
    var more := Raised(under, top);
    forall i | 0 <= i < |after| ensures SameButLeft(more[i + 1], after[i]) {}
    forall i | 0 < i < count + 1 ensures |more[i]| == 1 {
      assert |after[i - 1]| == 1;
    }
    forall i | 0 <= i < |rows| ensures SameButLeft(more[i + (count + 1)], rows[i]) {
      assert SameButLeft(after[i + count], rows[i]);
      assert SameButLeft(more[(i + count) + 1], after[i + count]);
    }
  }

  /** `clean_empty_top_lines`: `top` takes over the links of the node below it, as long as it has nothing to its right. */
  method CleanEmptyTopLines(ghost rows: seq<Row>, top: Node) returns (count: nat, ghost after: seq<Row>)
    requires Shape(rows) && Linked(rows) && rows[0][0] == top
    modifies top`right, top`down
    ensures count < |rows| && Lifted(after, rows, count)
    ensures Shape(after) && Linked(after) && after[0][0] == top
    ensures |after| > 1 ==> |after[0]| > 1
    ensures NodesOf(after) <= NodesOf(rows)
  {
    hide Shape, Linked, Lifted, NodesOf;
    count, after := 0, rows;
    LiftedNone(rows);
    while top.right == null
      invariant count < |rows| && Lifted(after, rows, count)
      invariant Shape(after) && Linked(after) && |after| > 0 && |after[0]| > 0 && after[0][0] == top
      invariant NodesOf(after) <= NodesOf(rows)
      decreases |after|
    {
      TopLinks(after);
      var tmp := top.down;
      if tmp == null {
        break;
      }
      LoweredShape(after);
      LoweredLinked(after);
      LoweredMore(rows, after, count, top);
      ghost var under := after[1..];
      top.right := tmp.right;
      top.down := tmp.down;
      HandedShape(under, top);
      HandedLinked(under, top);
      after := Handed(under, top);
      TopIsNode(rows);
      count := count + 1;
    }
    TopLinks(after);
  }

  lemma TopIsNode(rows: seq<Row>)
    requires |rows| > 0 && |rows[0]| > 0
    ensures rows[0][0] in NodesOf(rows)
  {
  }

  lemma TopLinks(rows: seq<Row>)
    requires Shape(rows) && Linked(rows)
    ensures var top := rows[0][0];
      && (top.right == null <==> |rows[0]| == 1)
      && (top.down == null <==> |rows| == 1)
      && (top.down != null ==> |rows[1]| > 0 && top.down == rows[1][0])
  {
    assert RightOk(rows[0]) && Edged(rows[0]);
    assert rows[0][0].right == RightOf(rows[0], 0);
    if |rows| > 1 {
      assert DownOk(rows[0], rows[1], null) && Edged(rows[1]);
    } else {
      assert BottomOk(rows[0]);
    }
  }

  lemma LoweredMore(rows: seq<Row>, after: seq<Row>, count: nat, top: Node)
    requires Lifted(after, rows, count) && Shape(after) && |after| > 1 && |after[0]| == 1
    ensures |after[1]| > 0
    ensures var less := Handed(after[1..], top); Lifted(less, rows, count + 1) && |less| > 0 && |less[0]| > 0 && less[0][0] == top
  {
    assert Edged(after[1]);
    var less := Handed(after[1..], top);
    assert |rows[0 + count]| == 1;
    forall i | 0 <= i < |less| ensures SameButLeft(less[i], rows[i + (count + 1)]) {
      assert SameButLeft(after[i + 1], rows[(i + 1) + count]);
    }
  }
}
