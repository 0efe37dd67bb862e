/** The skip list: towers of nodes, linked to the right and down, that hold a map from int to pointers. */
module SkipListNodes {

  /** A pointer that the list stores and does not look behind. */
  datatype Ptr = Null | To(id: nat)

  /** A key with its value. All nodes of a column share it. */
  class Data {
    const key: int
    var value: Ptr

    constructor (key: int, value: Ptr)
      ensures this.key == key && this.value == value
    {
      this.key := key;
      this.value := value;
    }
  }

  /** A node; those at the left edge have no data. */
  class Node {
    const data: Data?
    var right: Node?
    var down: Node?

    constructor (data: Data?)
      ensures this.data == data && right == null && down == null
    {
      this.data := data;
      right := null;
      down := null;
    }
  }

  /** A row begins with its node at the left edge. */
  type Row = seq<Node>

  function KeyOf(n: Node): int { if n.data == null then 0 else n.data.key }

  predicate Edged(row: Row) { |row| > 0 && row[0].data == null && forall j | 0 < j < |row| :: row[j].data != null }

  predicate Ascending(row: Row) { forall j, k | 0 < j < k < |row| :: KeyOf(row[j]) < KeyOf(row[k]) }

  predicate HasData(row: Row, d: Data?) { exists j | 0 < j < |row| :: row[j].data == d }

  /** Every key of a row is in the row below, with the same data. */
  predicate Within(row: Row, below: Row) { forall j | 0 < j < |row| :: HasData(below, row[j].data) }

  predicate Apart(rows: seq<Row>) {
    forall i, j, k, l | 0 <= i < |rows| && 0 <= j < |rows[i]| && 0 <= k < |rows| && 0 <= l < |rows[k]| ::
      rows[i][j] == rows[k][l] ==> i == k && j == l
  }

  /** The rows from top to bottom, apart from the links. */
  predicate Shape(rows: seq<Row>) {
    && |rows| > 0
    && (forall i | 0 <= i < |rows| :: Edged(rows[i]) && Ascending(rows[i]))
    && (forall i | 0 <= i < |rows| - 1 :: Within(rows[i], rows[i + 1]))
    && Apart(rows)
  }

  function NodesOf(rows: seq<Row>): set<Node> {
    set i, j | 0 <= i < |rows| && 0 <= j < |rows[i]| :: rows[i][j]
  }

  function DataIn(rows: seq<Row>): set<Data> { set n | n in NodesOf(rows) && n.data != null :: n.data }

  ghost predicate RightOk(row: Row)
    reads row`right
  {
    forall j | 0 <= j < |row| :: row[j].right == RightOf(row, j)
  }

  function RightOf(row: Row, j: nat): Node? { if j + 1 < |row| then row[j + 1] else null }

  /** Down from the left edge is the left edge of the next row; down from a column is the same column. */
  ghost predicate DownOk(row: Row, below: Row, d: Data?)
    reads row`down
  {
    && (|row| > 0 && |below| > 0 ==> row[0].down == below[0])
    && forall j | 0 < j < |row| && row[j].data != d ::
         row[j].down != null && row[j].down in below && row[j].down.data == row[j].data
  }

  ghost predicate BottomOk(row: Row)
    reads row`down
  {
    forall j | 0 <= j < |row| :: row[j].down == null
  }

  /** The links, but for those down in the column of `d`. */
  ghost predicate LinkedBut(rows: seq<Row>, d: Data?)
    reads NodesOf(rows)`right, NodesOf(rows)`down
  {
    && (forall i | 0 <= i < |rows| :: RightOk(rows[i]))
    && (forall i | 0 <= i < |rows| - 1 :: DownOk(rows[i], rows[i + 1], d))
    && (|rows| > 0 ==> BottomOk(rows[|rows| - 1]))
  }

  ghost predicate Linked(rows: seq<Row>)
    reads NodesOf(rows)`right, NodesOf(rows)`down
  {
    LinkedBut(rows, null)
  }

  /** The bottom row holds the map. */
  ghost predicate Holds(row: Row, m: map<int, Ptr>)
    reads (set n | n in row && n.data != null :: n.data)`value
  {
    && (forall j | 0 < j < |row| :: row[j].data != null ==> row[j].data.key in m && m[row[j].data.key] == row[j].data.value)
    && (forall k {:trigger HasKey(row, k)} :: k in m ==> HasKey(row, k))
  }

  predicate HasKey(row: Row, k: int) { exists j | 0 < j < |row| :: KeyOf(row[j]) == k }
}
