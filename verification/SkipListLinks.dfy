/** Linking nodes into the rows of a skip list and out of them. */
module SkipListLinks {
  import opened SkipListNodes

  function InsertAt(row: Row, p: nat, n: Node): Row
    requires p <= |row|
  {
    row[..p] + [n] + row[p..]
  }

  predicate Distinct(row: Row) { forall j, k | 0 <= j < |row| && 0 <= k < |row| :: row[j] == row[k] ==> j == k }

  lemma RowsApart(rows: seq<Row>, r: nat, p: nat)
    requires Apart(rows) && r < |rows| && p < |rows[r]|
    ensures Distinct(rows[r])
    ensures forall i | 0 <= i < |rows| && i != r :: rows[r][p] !in rows[i]
  {
  }

  lemma ApartInsert(rows: seq<Row>, r: nat, p: nat, n: Node)
    requires Apart(rows) && r < |rows| && p <= |rows[r]| && n !in NodesOf(rows)
    ensures Apart(rows[r := InsertAt(rows[r], p, n)])
  {
    var after := rows[r := InsertAt(rows[r], p, n)];
    forall i, j, k, l | 0 <= i < |after| && 0 <= j < |after[i]| && 0 <= k < |after| && 0 <= l < |after[k]| && after[i][j] == after[k][l]
      ensures i == k && j == l
    {
      var j' := if i == r && j > p then j - 1 else j;
      var l' := if k == r && l > p then l - 1 else l;
      if !(i == r && j == p) {
        assert after[i][j] == rows[i][j'];
      }
      if !(k == r && l == p) {
        assert after[k][l] == rows[k][l'];
      }
    }
  }

  lemma InsertedNext(row: Row, p: nat, n: Node, j: nat)
    requires p < |row| && j <= |row|
    ensures var after := InsertAt(row, p + 1, n);
      && |after| == |row| + 1
      && (j == p ==> after[j] == row[p] && RightOf(after, j) == n)
      && (j == p + 1 ==> after[j] == n && RightOf(after, j) == RightOf(row, p))
      && (j < p ==> after[j] == row[j] && RightOf(after, j) == RightOf(row, j))
      && (j > p + 1 ==> after[j] == row[j - 1] && RightOf(after, j) == RightOf(row, j - 1))
  {
  }

  /** Links the node `tmp` into a row, behind the node `u` at place `p`. */
  method InsertInRow(ghost row: Row, u: Node, tmp: Node, ghost p: nat)
    requires p < |row| && u == row[p] && Distinct(row) && tmp !in row && RightOk(row)
    modifies u`right, tmp`right
    ensures RightOk(InsertAt(row, p + 1, tmp))
  {
    assert u.right == RightOf(row, p);
    tmp.right := u.right;
    u.right := tmp;
    hide InsertAt, RightOf;
    ghost var after := InsertAt(row, p + 1, tmp);
    InsertedNext(row, p, tmp, p);
    forall j | 0 <= j < |after| ensures after[j].right == RightOf(after, j) {
      InsertedNext(row, p, tmp, j);
    }
    assert RightOk(after);
  }

  lemma DownMore(row: Row, below: Row, p: nat, n: Node, d: Data?)
    requires DownOk(row, below, d) && 0 < p <= |below|
    ensures DownOk(row, InsertAt(below, p, n), d)
  {
  }

  lemma DownInserted(row: Row, below: Row, p: nat, n: Node)
    requires n.data != null && DownOk(row, below, n.data) && 0 < p <= |row|
    ensures DownOk(InsertAt(row, p, n), below, n.data)
  {
    var after := InsertAt(row, p, n);
    forall j | 0 < j < |after| && after[j].data != n.data
      ensures after[j].down != null && after[j].down in below && after[j].down.data == after[j].data
    {
      assert after[j] == row[if j < p then j else j - 1];
    }
  }

  lemma BottomInserted(row: Row, p: nat, n: Node)
    requires BottomOk(row) && p <= |row| && n.down == null
    ensures BottomOk(InsertAt(row, p, n))
  {
  }

  /** Links a new node for `data` into row `r`, behind the node `u` at place `p`. */
  method InsertNode(ghost rows: seq<Row>, u: Node, data: Data, ghost r: nat, ghost p: nat)
    returns (tmp: Node, ghost after: seq<Row>)
    requires r < |rows| && p < |rows[r]| && u == rows[r][p] && Apart(rows) && LinkedBut(rows, data)
    modifies u`right
    ensures fresh(tmp) && tmp.data == data && tmp.down == null
    ensures after == rows[r := InsertAt(rows[r], p + 1, tmp)]
    ensures Apart(after) && LinkedBut(after, data)
  {
    hide RightOk, DownOk, BottomOk, Apart, Distinct, InsertAt;
    RowsApart(rows, r, p);
    tmp := new Node(data);
    after := rows[r := InsertAt(rows[r], p + 1, tmp)];
    ApartInsert(rows, r, p + 1, tmp);
    InsertInRow(rows[r], u, tmp, p);
    if r > 0 {
      DownMore(rows[r - 1], rows[r], p + 1, tmp, data);
    }
    if r < |rows| - 1 {
      DownInserted(rows[r], rows[r + 1], p + 1, tmp);
    } else {
      BottomInserted(rows[r], p + 1, tmp);
    }
  }

  function RemoveAt(row: Row, p: nat): Row
    requires p < |row|
  {
    row[..p] + row[p + 1..]
  }

  lemma ApartRemove(rows: seq<Row>, r: nat, p: nat)
    requires Apart(rows) && r < |rows| && p < |rows[r]|
    ensures Apart(rows[r := RemoveAt(rows[r], p)])
  {
    var after := rows[r := RemoveAt(rows[r], p)];
    forall i, j, k, l | 0 <= i < |after| && 0 <= j < |after[i]| && 0 <= k < |after| && 0 <= l < |after[k]| && after[i][j] == after[k][l]
      ensures i == k && j == l
    {
      var j' := if i == r && j >= p then j + 1 else j;
      var l' := if k == r && l >= p then l + 1 else l;
      assert after[i][j] == rows[i][j'];
      assert after[k][l] == rows[k][l'];
    }
  }

  /** Links the node behind `u`, which is at place `p`, out of a row. */
  method RemoveFromRow(ghost row: Row, u: Node, ghost p: nat)
    requires p + 1 < |row| && u == row[p] && Distinct(row) && RightOk(row)
    modifies u`right
    ensures RightOk(RemoveAt(row, p + 1))
  {
    assert u.right == row[p + 1] && u.right.right == RightOf(row, p + 1);
    u.right := u.right.right;
    ghost var after := RemoveAt(row, p + 1);
    forall j | 0 <= j < |after| ensures after[j].right == RightOf(after, j) {
      assert |after| == |row| - 1;
      var k := if j <= p then j else j + 1;
      assert after[j] == row[k] && k < |row|;
      assert k != p ==> row[k].right == RightOf(row, k);
      assert j != p && k + 1 < |row| ==> after[j + 1] == row[k + 1];
    }
    assert RightOk(after);
  }

  lemma DownFewer(row: Row, below: Row, p: nat)
    requires DownOk(row, below, null) && Edged(row) && 0 < p < |below|
    requires forall j | 0 < j < |row| :: row[j].data != below[p].data
    ensures DownOk(row, RemoveAt(below, p), null)
  {
    var after := RemoveAt(below, p);
    forall j | 0 < j < |row| && row[j].data != null
      ensures row[j].down != null && row[j].down in after && row[j].down.data == row[j].data
    {
      var l :| 0 <= l < |below| && below[l] == row[j].down;
      assert after[if l < p then l else l - 1] == below[l];
    }
  }

  lemma DownRemoved(row: Row, below: Row, p: nat)
    requires DownOk(row, below, null) && 0 < p < |row|
    ensures DownOk(RemoveAt(row, p), below, null)
  {
    var after := RemoveAt(row, p);
    forall j | 0 < j < |after| && after[j].data != null
      ensures after[j].down != null && after[j].down in below && after[j].down.data == after[j].data
    {
      assert after[j] == row[if j < p then j else j + 1];
    }
  }

  lemma BottomRemoved(row: Row, p: nat)
    requires BottomOk(row) && p < |row|
    ensures BottomOk(RemoveAt(row, p))
  {
  }

  /** Links the node behind `u` out of row `r`; its column has gone from the row above. */
  method RemoveNode(ghost rows: seq<Row>, u: Node, ghost r: nat, ghost p: nat) returns (ghost after: seq<Row>)
    requires r < |rows| && p + 1 < |rows[r]| && u == rows[r][p] && Apart(rows) && Linked(rows)
    requires r > 0 ==> Edged(rows[r - 1]) && !HasData(rows[r - 1], rows[r][p + 1].data)
    modifies u`right
    ensures after == rows[r := RemoveAt(rows[r], p + 1)]
    ensures Apart(after) && Linked(after)
  {
    hide RightOk, DownOk, BottomOk, Apart, Distinct, RemoveAt;
    RowsApart(rows, r, p);
    after := rows[r := RemoveAt(rows[r], p + 1)];
    ApartRemove(rows, r, p + 1);
    RemoveFromRow(rows[r], u, p);
    if r > 0 {
      DownFewer(rows[r - 1], rows[r], p + 1);
    }
    if r < |rows| - 1 {
      DownRemoved(rows[r], rows[r + 1], p + 1);
    } else {
      BottomRemoved(rows[r], p + 1);
    }
  }

  /** Links a node of the new column down. */
  method LinkDown(ghost rows: seq<Row>, ghost r: nat, ghost p: nat, n: Node, below: Node?)
    requires r < |rows| - 1 && 0 < p < |rows[r]| && n == rows[r][p] && n.data != null
    requires Apart(rows) && LinkedBut(rows, n.data)
    modifies n`down
    ensures n.down == below && LinkedBut(rows, n.data)
  {
    n.down := below;
    assert forall i | 0 <= i < |rows| :: RightOk(rows[i]);
    forall i | 0 <= i < |rows| - 1 ensures DownOk(rows[i], rows[i + 1], n.data) {
      assert |rows[i]| > 0 ==> rows[i][0] != n;
    }
    ghost var bottom := rows[|rows| - 1];
    forall j | 0 <= j < |bottom| ensures bottom[j].down == null {
      assert bottom[j] != n;
    }
  }

  /** Once the new column is linked down, everything is. */
  lemma ColumnLinked(rows: seq<Row>, d: Data)
    requires LinkedBut(rows, d)
    requires forall i, j | 0 <= i < |rows| - 1 && 0 < j < |rows[i]| && rows[i][j].data == d ::
      rows[i][j].down != null && rows[i][j].down in rows[i + 1] && rows[i][j].down.data == d
    ensures Linked(rows)
  {
  }
}
