/** bidHistoryItemsToProto of game/game.go: the auction laid out in rows of four columns for the bidding board. */
module BidBoard {
  import opened Entities
  import opened BidManager

  /** What a column shows: the level, 0 for pass, double and redouble, and the denomination. */
  datatype Column = Column(line: int, suit: int)

  function ColumnOf(x: BidItem): Column {
    Column(if SuitOf(x.value) <= TRUMP then x.line else 0, SuitOf(x.value))
  }

  function ColumnsOf(items: History): (columns: seq<Column>)
    ensures |columns| == |items|
  {
    seq(|items|, i requires 0 <= i < |items| => ColumnOf(items[i]))
  }

  /** Row k of the board of the first n columns. */
  function RowOf(columns: seq<Column>, n: nat, k: nat): seq<Column>
    requires n <= |columns|
  {
    if 4 * k + 4 <= n then columns[4 * k..4 * k + 4] else if 4 * k <= n then columns[4 * k..n] else []
  }

  /** Number of the last row; an empty auction still has row 0. */
  function LastRow(n: nat): nat {
    if n == 0 then 0 else (n - 1) / 4
  }

  ghost predicate IsBoard(rows: map<nat, seq<Column>>, columns: seq<Column>, n: nat)
    requires n <= |columns|
  {
    && (forall k: nat :: k in rows <==> k <= LastRow(n))
    && (forall k: nat :: k in rows ==> rows[k] == RowOf(columns, n, k))
  }

  method BidHistoryItemsToProto(items: History) returns (rows: map<nat, seq<Column>>)
    ensures IsBoard(rows, ColumnsOf(items), |items|)
  {
    var line: nat := 0;
    rows := map[0 := []];
    ghost var columns := ColumnsOf(items);
    for i := 0 to |items|
      invariant line == LastRow(i) && IsBoard(rows, columns, i)
    {
      NextColumn(columns, i);
      if |rows[line]| < 4 {
        FillRow(rows, columns, i);
      } else {
        StartRow(rows, columns, i);
      }
      assert ColumnOf(items[i]) == columns[i];
      if (|rows[line]| + 1) % 5 == 0 {
        if i > 0 {
          line := line + 1;
        }
        rows := rows[line := []];
      }
      var row := rows[line] + [ColumnOf(items[i])];
      rows := rows[line := row];
    }
  }

  lemma StartRow(rows: map<nat, seq<Column>>, columns: seq<Column>, i: nat)
    requires i < |columns| && IsBoard(rows, columns, i) && |rows[LastRow(i)]| == 4
    ensures IsBoard(rows[LastRow(i) + 1 := []][LastRow(i) + 1 := [columns[i]]], columns, i + 1)
  {
  }

  lemma FillRow(rows: map<nat, seq<Column>>, columns: seq<Column>, i: nat)
    requires i < |columns| && IsBoard(rows, columns, i) && |rows[LastRow(i)]| < 4
    ensures IsBoard(rows[LastRow(i) := rows[LastRow(i)] + [columns[i]]], columns, i + 1)
  {
    NextColumn(columns, i);
  }

  /** One more column starts a row when the last row is full, and leaves the rows before its own as they were. */
  lemma NextColumn(columns: seq<Column>, i: nat)
    requires i < |columns|
    ensures var last := LastRow(i);
            && |RowOf(columns, i, last)| <= 4
            && (|RowOf(columns, i, last)| == 4 <==> i > 0 && LastRow(i + 1) == last + 1)
            && (|RowOf(columns, i, last)| < 4 ==> LastRow(i + 1) == last)
            && (|RowOf(columns, i, last)| < 4 ==> RowOf(columns, i + 1, last) == RowOf(columns, i, last) + [columns[i]])
            && (|RowOf(columns, i, last)| == 4 ==> RowOf(columns, i + 1, last + 1) == [columns[i]])
    ensures forall k: nat :: k < LastRow(i + 1) ==> RowOf(columns, i + 1, k) == RowOf(columns, i, k)
  {
  }

  /** The rows up to k, one after the other. */
  function Joined(rows: map<nat, seq<Column>>, k: nat): seq<Column> {
    (if k == 0 then [] else Joined(rows, k - 1)) + if k in rows then rows[k] else []
  }

  lemma {:induction false} RowsReadBack(rows: map<nat, seq<Column>>, columns: seq<Column>, k: nat)
    requires IsBoard(rows, columns, |columns|) && k <= LastRow(|columns|)
    ensures Joined(rows, k) == columns[..if 4 * k + 4 <= |columns| then 4 * k + 4 else |columns|]
    ensures k < LastRow(|columns|) ==> |rows[k]| == 4
  {
    if k > 0 {
      RowsReadBack(rows, columns, k - 1);
      assert Joined(rows, k - 1) == columns[..4 * k];
    }
  }

  /** Reading the rows in order gives the auction back, and every row but the last is full. */
  lemma BoardRoundTrip(rows: map<nat, seq<Column>>, items: History)
    requires IsBoard(rows, ColumnsOf(items), |items|)
    ensures Joined(rows, LastRow(|items|)) == ColumnsOf(items)
    ensures forall k: nat :: k < LastRow(|items|) ==> k in rows && |rows[k]| == 4
  {
    var columns := ColumnsOf(items);
    RowsReadBack(rows, columns, LastRow(|items|));
    forall k: nat | k < LastRow(|items|) ensures k in rows && |rows[k]| == 4 {
      RowsReadBack(rows, columns, k);
    }
  }

  /** A column shows the level and denomination of a bid; a level of 0 marks the other calls, and the denomination then
      tells pass, double and redouble apart. A bid can be read back from its column. */
  lemma ColumnShowsBid(x: BidItem, y: BidItem)
    requires WellFormed(x) && WellFormed(y)
    ensures IsContract(x) ==>
              && ColumnOf(x).line == (x.value - 1) / 8 + 1
              && CLUB <= ColumnOf(x).suit == (x.value - 1) % 8 - 1 <= TRUMP
    ensures IsPass(x) ==> ColumnOf(x) == Column(0, PASS)
    ensures IsDouble(x) ==> ColumnOf(x) == Column(0, x.dbType) && (x.dbType == DOUBLE || x.dbType == REDOUBLE)
    ensures IsContract(x) || IsPass(x) || IsDouble(x)
    ensures ColumnOf(x) == ColumnOf(y) && IsContract(x) ==> x.value == y.value
  {
    CallKinds(x);
    CallKinds(y);
    var lx, kx := LevelAndPosition(x.value);
    var ly, ky := LevelAndPosition(y.value);
  }
}
