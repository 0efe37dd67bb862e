/** The heights of the columns, and that the list's operations change none but the one of their key. */
module SkipListHeights {
  import opened SkipListNodes
  import opened SkipListLinks
  import opened SkipListColumns

  /** How many nodes the column of a key has. */
  function Height(rows: seq<Row>, key: int): (h: nat)
    ensures h <= |rows|
  {
    if |rows| == 0 then 0 else (if HasKey(rows[0], key) then 1 else 0) + Height(rows[1..], key)
  }

  /** Every key but one has a column of the same height in both. */
  ghost predicate SameBut(rows: seq<Row>, after: seq<Row>, key: int) {
    forall k | k != key :: Height(after, k) == Height(rows, k)
  }

  /** A column that begins in row `from` and goes down to the last one. */
  lemma {:induction false} HeightFrom(rows: seq<Row>, key: int, from: nat)
    requires from <= |rows| && forall i | 0 <= i < |rows| :: HasKey(rows[i], key) <==> i >= from
    ensures Height(rows, key) == |rows| - from
  {
    hide HasKey;
    if |rows| > 0 {
      HeightFrom(rows[1..], key, if from > 0 then from - 1 else 0);
    }
  }

  lemma {:induction false} HeightSame(rows: seq<Row>, after: seq<Row>, key: int, count: nat)
    requires |after| == |rows| + count
    requires forall i | 0 <= i < count :: !HasKey(after[i], key)
    requires forall i | 0 <= i < |rows| :: HasKey(after[i + count], key) <==> HasKey(rows[i], key)
    ensures Height(after, key) == Height(rows, key)
    decreases |after|
  {
    hide HasKey;
    if count > 0 {
      HeightSame(rows, after[1..], key, count - 1);
    } else if |rows| > 0 {
      assert HasKey(after[0 + count], key) <==> HasKey(rows[0], key);
      forall i | 0 <= i < |rows[1..]| ensures HasKey(after[1..][i], key) <==> HasKey(rows[1..][i], key) {
        assert HasKey(after[(i + 1) + count], key) <==> HasKey(rows[i + 1], key);
      }
      HeightSame(rows[1..], after[1..], key, 0);
    }
  }

  /** Empty rows on top do not count. */
  lemma LiftedHeights(rows: seq<Row>, after: seq<Row>, count: nat, key: int)
    requires Lifted(rows, after, count)
    ensures Height(after, key) == Height(rows, key)
  {
    forall i | 0 <= i < |rows| ensures HasKey(after[i + count], key) <==> HasKey(rows[i], key) {
      SameKeys(rows[i], after[i + count], key);
    }
    HeightSame(rows, after, key, count);
  }

  lemma SameKeys(row: Row, row': Row, key: int)
    requires SameButLeft(row', row)
    ensures HasKey(row', key) <==> HasKey(row, key)
  {
    forall j | 0 < j < |row| ensures row[j] == row'[j] {
      assert row[1..][j - 1] == row'[1..][j - 1];
    }
  }

  lemma KeysInserted(row: Row, p: nat, n: Node, key: int)
    requires p < |row|
    ensures HasKey(InsertAt(row, p + 1, n), key) <==> KeyOf(n) == key || HasKey(row, key)
  {
    var after := InsertAt(row, p + 1, n);
    assert after[p + 1] == n;
    forall j | 0 < j < |row| ensures row[j] == after[if j <= p then j else j + 1] {}
  }

  lemma KeysRemoved(row: Row, p: nat, key: int)
    requires 0 < p < |row| && KeyOf(row[p]) != key
    ensures HasKey(RemoveAt(row, p), key) <==> HasKey(row, key)
  {
    var after := RemoveAt(row, p);
    forall j | 0 < j < |row| && j != p ensures row[j] == after[if j < p then j else j - 1] {}
  }

  /** The new column is as high as it was to be, the others stay. */
  lemma GrownHeights(rows: seq<Row>, after: seq<Row>, places: seq<nat>, column: seq<Node>, from: nat, key: int)
    requires Grown(rows, after, places, column, from, |rows|)
    requires forall n | n in column :: KeyOf(n) == key
    requires forall i | 0 <= i < |rows| :: !HasKey(rows[i], key)
    ensures Height(after, key) == |rows| - from && SameBut(rows, after, key)
  {
    hide HasKey;
    forall i, k | 0 <= i < |rows| ensures HasKey(after[i], k) <==> (k == key && i >= from) || HasKey(rows[i], k) {
      if i >= from {
        assert column[i - from] in column;
        KeysInserted(rows[i], places[i], column[i - from], k);
      }
    }
    HeightFrom(after, key, from);
    forall k | k != key ensures Height(after, k) == Height(rows, k) {
      HeightSame(rows, after, k, 0);
    }
  }

  /** The column of the key is gone, the others stay. */
  lemma ShrunkHeights(rows: seq<Row>, after: seq<Row>, places: seq<nat>, key: int)
    requires Shrunk(rows, after, places, key, |rows|)
    ensures SameBut(rows, after, key)
  {
    hide HasKey;
    forall k | k != key ensures Height(after, k) == Height(rows, k) {
      forall i | 0 <= i < |rows| ensures HasKey(after[i], k) <==> HasKey(rows[i], k) {
        var p := places[i] + 1;
        if p < |rows[i]| && KeyOf(rows[i][p]) == key {
          KeysRemoved(rows[i], p, k);
        }
      }
      HeightSame(rows, after, k, 0);
    }
  }
}
