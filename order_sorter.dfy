/** The reading-order sorter (backend/core/order_sorter.py): orders positioned objects top to
    bottom, left to right, or row by row like a reader, and numbers them 1..N in place.

    Centres are compared doubled, `2*y + height` instead of `y + height/2`, so that every key
    is an integer; the row tolerance is doubled to match. */
module OrderSorter {
  import opened Wrappers
  import opened Sorting

  /** An object's `position` dictionary. A key the dictionary lacks reads as 0, and an object
      with no `position` at all is `NoPosition`. */
  datatype Position = Position(x: Option<int>, y: Option<int>, width: Option<int>, height: Option<int>)

  const NoPosition := Position(None, None, None, None)

  /** Twice `_get_y_center`. */
  function YKey(p: Position): (k: int)
    ensures p.y.None? && p.height.None? ==> k == 0
    ensures p.y.Some? && p.height.None? ==> k == 2 * p.y.value
    ensures p.y.None? && p.height.Some? ==> k == p.height.value
    ensures p.y.Some? && p.height.Some? ==> k == 2 * p.y.value + p.height.value
  {
    2 * p.y.GetOr(0) + p.height.GetOr(0)
  }

  /** Twice `_get_x_center`. */
  function XKey(p: Position): (k: int)
    ensures p.x.None? && p.width.None? ==> k == 0
    ensures p.x.Some? && p.width.None? ==> k == 2 * p.x.value
    ensures p.x.None? && p.width.Some? ==> k == p.width.value
    ensures p.x.Some? && p.width.Some? ==> k == 2 * p.x.value + p.width.value
  {
    2 * p.x.GetOr(0) + p.width.GetOr(0)
  }

  /** "`a` is not below `b`", comparing vertical centres. */
  function ByY<T>(pos: T -> Position): (T, T) -> bool {
    (a: T, b: T) => YKey(pos(a)) <= YKey(pos(b))
  }

  /** "`a` is not right of `b`", comparing horizontal centres. */
  function ByX<T>(pos: T -> Position): (T, T) -> bool {
    (a: T, b: T) => XKey(pos(a)) <= XKey(pos(b))
  }

  /** `sort_top_to_bottom`. */
  function SortTopToBottom<T>(pos: T -> Position, objs: seq<T>): seq<T> {
    SortBy(ByY(pos), objs)
  }

  /** `sort_left_to_right`. */
  function SortLeftToRight<T>(pos: T -> Position, objs: seq<T>): seq<T> {
    SortBy(ByX(pos), objs)
  }

  /** `top_to_bottom` returns the same objects with nondecreasing vertical centres, and objects
      with equal centres stay in their input order. */
  lemma TopToBottomSorted<T>(pos: T -> Position, objs: seq<T>)
    ensures var r := SortTopToBottom(pos, objs);
      && multiset(r) == multiset(objs)
      && (forall i, j | 0 <= i < j < |r| :: YKey(pos(r[i])) <= YKey(pos(r[j])))
      && (forall z | z in objs :: Ties(ByY(pos), r, z) == Ties(ByY(pos), objs, z))
  {
    SortBySorted(ByY(pos), objs);
    forall z | z in objs {
      SortByStable(ByY(pos), objs, z);
    }
  }

  /** `left_to_right` returns the same objects with nondecreasing horizontal centres, and
      objects with equal centres stay in their input order. */
  lemma LeftToRightSorted<T>(pos: T -> Position, objs: seq<T>)
    ensures var r := SortLeftToRight(pos, objs);
      && multiset(r) == multiset(objs)
      && (forall i, j | 0 <= i < j < |r| :: XKey(pos(r[i])) <= XKey(pos(r[j])))
      && (forall z | z in objs :: Ties(ByX(pos), r, z) == Ties(ByX(pos), objs, z))
  {
    SortBySorted(ByX(pos), objs);
    forall z | z in objs {
      SortByStable(ByX(pos), objs, z);
    }
  }

  /** `abs(obj_y - current_y) <= row_tolerance`, on doubled keys. */
  predicate SameRow(anchor: int, key: int, tolerance: int) {
    -2 * tolerance <= key - anchor <= 2 * tolerance
  }

  /** The grouping loop of `sort_reading_order` from the point where `row` is the current row,
      `anchor` its (doubled) `current_y`, and `rest` the objects not yet visited. */
  function RowsFrom<T>(pos: T -> Position, tolerance: int, row: seq<T>, anchor: int, rest: seq<T>): seq<seq<T>>
    decreases |rest|
  {
    if rest == [] then [row]
    else if SameRow(anchor, YKey(pos(rest[0])), tolerance) then
      RowsFrom(pos, tolerance, row + [rest[0]], anchor, rest[1..])
    else
      [row] + RowsFrom(pos, tolerance, [rest[0]], YKey(pos(rest[0])), rest[1..])
  }

  /** The rows `sort_reading_order` forms from the (vertically sorted) list `s`: the first
      object opens a row and fixes its anchor, which does not move as members join. */
  function Rows<T>(pos: T -> Position, tolerance: int, s: seq<T>): seq<seq<T>> {
    if s == [] then [] else RowsFrom(pos, tolerance, [s[0]], YKey(pos(s[0])), s[1..])
  }

  function Flatten<T>(rows: seq<seq<T>>): seq<T> {
    if rows == [] then [] else rows[0] + Flatten(rows[1..])
  }

  /** Every row is non-empty, every member is within the tolerance of its row's first member,
      and the first member of each row is beyond the tolerance of the previous row's first. */
  ghost predicate RowsWellFormed<T>(pos: T -> Position, tolerance: int, rows: seq<seq<T>>) {
    && (forall k | 0 <= k < |rows| :: rows[k] != [])
    && (forall k, m | 0 <= k < |rows| && m in rows[k] ::
          SameRow(YKey(pos(rows[k][0])), YKey(pos(m)), tolerance))
    && (forall k | 0 <= k < |rows| - 1 ::
          !SameRow(YKey(pos(rows[k][0])), YKey(pos(rows[k + 1][0])), tolerance))
  }

  lemma {:induction false} RowsFromShape<T>(pos: T -> Position, tolerance: int, row: seq<T>, anchor: int, rest: seq<T>)
    requires row != [] && anchor == YKey(pos(row[0]))
    requires forall m | m in row :: SameRow(anchor, YKey(pos(m)), tolerance)
    decreases |rest|
    ensures var rows := RowsFrom(pos, tolerance, row, anchor, rest);
      && rows != [] && rows[0] != [] && rows[0][0] == row[0]
      && Flatten(rows) == row + rest
      && RowsWellFormed(pos, tolerance, rows)
  {
    var rows := RowsFrom(pos, tolerance, row, anchor, rest);
    if rest == [] {
      assert Flatten(rows) == row + Flatten([]);
    } else if SameRow(anchor, YKey(pos(rest[0])), tolerance) {
      RowsFromShape(pos, tolerance, row + [rest[0]], anchor, rest[1..]);
      assert row + [rest[0]] + rest[1..] == row + rest;
    } else {
      var next := RowsFrom(pos, tolerance, [rest[0]], YKey(pos(rest[0])), rest[1..]);
      RowsFromShape(pos, tolerance, [rest[0]], YKey(pos(rest[0])), rest[1..]);
      assert rows == [row] + next;
      assert rows[1..] == next;
      assert [rest[0]] + rest[1..] == rest;
      forall k, m | 0 <= k < |rows| && m in rows[k]
        ensures SameRow(YKey(pos(rows[k][0])), YKey(pos(m)), tolerance)
      {
        if k > 0 {
          assert rows[k] == next[k - 1];
        }
      }
      forall k | 0 <= k < |rows| - 1
        ensures !SameRow(YKey(pos(rows[k][0])), YKey(pos(rows[k + 1][0])), tolerance)
      {
        if k > 0 {
          assert rows[k] == next[k - 1] && rows[k + 1] == next[k];
        }
      }
    }
  }

  /** The rows are consecutive runs of the list that cover it in order, with the anchors
      fixed at each row's first member. */
  lemma RowsPartition<T>(pos: T -> Position, tolerance: int, s: seq<T>)
    requires tolerance >= 0
    ensures Flatten(Rows(pos, tolerance, s)) == s
    ensures RowsWellFormed(pos, tolerance, Rows(pos, tolerance, s))
  {
    if s != [] {
      RowsFromShape(pos, tolerance, [s[0]], YKey(pos(s[0])), s[1..]);
      assert [s[0]] + s[1..] == s;
    }
  }

  /** Whatever the tolerance, even a negative one under which every object is a row of its own,
      the rows concatenate back to the list they were cut from. */
  lemma {:induction false} RowsFromFlatten<T>(pos: T -> Position, tolerance: int, row: seq<T>, anchor: int, rest: seq<T>)
    decreases |rest|
    ensures Flatten(RowsFrom(pos, tolerance, row, anchor, rest)) == row + rest
  {
    if rest == [] {
      assert Flatten([row]) == row + Flatten([]);
    } else if SameRow(anchor, YKey(pos(rest[0])), tolerance) {
      RowsFromFlatten(pos, tolerance, row + [rest[0]], anchor, rest[1..]);
      assert row + [rest[0]] + rest[1..] == row + rest;
    } else {
      var next := RowsFrom(pos, tolerance, [rest[0]], YKey(pos(rest[0])), rest[1..]);
      RowsFromFlatten(pos, tolerance, [rest[0]], YKey(pos(rest[0])), rest[1..]);
      assert ([row] + next)[1..] == next;
      assert [rest[0]] + rest[1..] == rest;
    }
  }

  lemma RowsFlatten<T>(pos: T -> Position, tolerance: int, s: seq<T>)
    ensures Flatten(Rows(pos, tolerance, s)) == s
  {
    if s != [] {
      RowsFromFlatten(pos, tolerance, [s[0]], YKey(pos(s[0])), s[1..]);
      assert [s[0]] + s[1..] == s;
    }
  }

  /** Each row sorted by horizontal centre. */
  function SortEachRow<T>(pos: T -> Position, rows: seq<seq<T>>): (r: seq<seq<T>>)
    ensures |r| == |rows|
  {
    seq(|rows|, k requires 0 <= k < |rows| => SortLeftToRight(pos, rows[k]))
  }

  /** `sort_reading_order`: rows of the vertically sorted list, each sorted horizontally,
      concatenated in the order the rows were formed. */
  function ReadingOrder<T>(pos: T -> Position, tolerance: int, objs: seq<T>): seq<T> {
    if objs == [] then []
    else Flatten(SortEachRow(pos, Rows(pos, tolerance, SortTopToBottom(pos, objs))))
  }

  lemma {:induction false} FlattenAppend<T>(rows: seq<seq<T>>, row: seq<T>)
    ensures Flatten(rows + [row]) == Flatten(rows) + row
  {
    if rows == [] {
      assert [row][1..] == [];
    } else {
      assert (rows + [row])[1..] == rows[1..] + [row];
      FlattenAppend(rows[1..], row);
    }
  }

  lemma {:induction false} SortEachRowPermutation<T>(pos: T -> Position, rows: seq<seq<T>>)
    ensures multiset(Flatten(SortEachRow(pos, rows))) == multiset(Flatten(rows))
  {
    if rows != [] {
      var sorted := SortEachRow(pos, rows);
      SortEachRowPermutation(pos, rows[1..]);
      assert sorted[1..] == SortEachRow(pos, rows[1..]);
      assert Flatten(sorted) == sorted[0] + Flatten(sorted[1..]);
      assert multiset(sorted[0]) == multiset(rows[0]);
    }
  }

  /** `reading_order` returns a permutation of its input. */
  lemma ReadingOrderPermutation<T>(pos: T -> Position, tolerance: int, objs: seq<T>)
    ensures multiset(ReadingOrder(pos, tolerance, objs)) == multiset(objs)
  {
    if objs != [] {
      var ys := SortTopToBottom(pos, objs);
      RowsFlatten(pos, tolerance, ys);
      SortEachRowPermutation(pos, Rows(pos, tolerance, ys));
    }
  }

  /** The shape of a `reading_order` result: the vertically sorted input is cut into rows
      anchored at their first members, and each row is emitted, top row first, as a
      horizontally sorted permutation of itself. */
  lemma ReadingOrderRows<T>(pos: T -> Position, tolerance: int, objs: seq<T>)
    requires tolerance >= 0 && objs != []
    ensures var rows := Rows(pos, tolerance, SortTopToBottom(pos, objs));
      && Flatten(rows) == SortTopToBottom(pos, objs)
      && RowsWellFormed(pos, tolerance, rows)
      && ReadingOrder(pos, tolerance, objs) == Flatten(SortEachRow(pos, rows))
      && (forall k | 0 <= k < |rows| ::
            && multiset(SortEachRow(pos, rows)[k]) == multiset(rows[k])
            && forall i, j | 0 <= i < j < |rows[k]| ::
                 XKey(pos(SortEachRow(pos, rows)[k][i])) <= XKey(pos(SortEachRow(pos, rows)[k][j])))
  {
    var rows := Rows(pos, tolerance, SortTopToBottom(pos, objs));
    RowsPartition(pos, tolerance, SortTopToBottom(pos, objs));
    var sorted := SortEachRow(pos, rows);
    forall k | 0 <= k < |rows|
      ensures multiset(sorted[k]) == multiset(rows[k])
      ensures forall i, j | 0 <= i < j < |rows[k]| :: XKey(pos(sorted[k][i])) <= XKey(pos(sorted[k][j]))
    {
      assert sorted[k] == SortLeftToRight(pos, rows[k]);
      LeftToRightSorted(pos, rows[k]);
    }
  }

  lemma RowsFromStep<T>(pos: T -> Position, tolerance: int, row: seq<T>, anchor: int, s: seq<T>, i: nat)
    requires i < |s|
    ensures RowsFrom(pos, tolerance, row, anchor, s[i..]) ==
      if SameRow(anchor, YKey(pos(s[i])), tolerance) then RowsFrom(pos, tolerance, row + [s[i]], anchor, s[i + 1..])
      else [row] + RowsFrom(pos, tolerance, [s[i]], YKey(pos(s[i])), s[i + 1..])
  {
    assert s[i..][1..] == s[i + 1..];
  }

  lemma SortEachRowAppend<T>(pos: T -> Position, rows: seq<seq<T>>, k: nat)
    requires k < |rows|
    ensures Flatten(SortEachRow(pos, rows[..k + 1])) == Flatten(SortEachRow(pos, rows[..k])) + SortLeftToRight(pos, rows[k])
  {
    assert SortEachRow(pos, rows[..k + 1]) == SortEachRow(pos, rows[..k]) + [SortLeftToRight(pos, rows[k])];
    FlattenAppend(SortEachRow(pos, rows[..k]), SortLeftToRight(pos, rows[k]));
  }

  /** The first loop of `sort_reading_order`: a new row starts at each object too far below
      the current row's first member. */
  method GroupRows<T>(pos: T -> Position, tolerance: int, ySorted: seq<T>) returns (rows: seq<seq<T>>)
    requires ySorted != []
    ensures rows == Rows(pos, tolerance, ySorted)
  {
    rows := [];
    var currentRow := [ySorted[0]];
    var currentY := YKey(pos(ySorted[0]));
    var i := 1;
    while i < |ySorted|
      invariant 1 <= i <= |ySorted|
      invariant currentRow != []
      invariant rows + RowsFrom(pos, tolerance, currentRow, currentY, ySorted[i..]) == Rows(pos, tolerance, ySorted)
    {
      var obj := ySorted[i];
      var objY := YKey(pos(obj));
      RowsFromStep(pos, tolerance, currentRow, currentY, ySorted, i);
      if SameRow(currentY, objY, tolerance) {
        currentRow := currentRow + [obj];
      } else {
        rows := rows + [currentRow];
        currentRow := [obj];
        currentY := objY;
      }
      i := i + 1;
    }
    if currentRow != [] {
      rows := rows + [currentRow];
    }
  }

  /** The second loop of `sort_reading_order`: each row sorted horizontally, appended in turn. */
  method SortRows<T>(pos: T -> Position, rows: seq<seq<T>>) returns (result: seq<T>)
    ensures result == Flatten(SortEachRow(pos, rows))
  {
    result := [];
    var k := 0;
    while k < |rows|
      invariant 0 <= k <= |rows|
      invariant result == Flatten(SortEachRow(pos, rows[..k]))
    {
      var sortedRow := SortLeftToRight(pos, rows[k]);
      SortEachRowAppend(pos, rows, k);
      result := result + sortedRow;
      k := k + 1;
    }
    assert rows[..k] == rows;
  }

  /** `sort_reading_order`. */
  method SortReadingOrder<T>(pos: T -> Position, tolerance: int, objs: seq<T>) returns (result: seq<T>)
    ensures result == ReadingOrder(pos, tolerance, objs)
  {
    if objs == [] {
      return [];
    }
    var ySorted := SortTopToBottom(pos, objs);
    var rows := GroupRows(pos, tolerance, ySorted);
    result := SortRows(pos, rows);
  }

  /** `sort`: the result for each `order` string; `grid_order` and any string the sorter does
      not know fall back to `reading_order`. */
  function SortSpec<T>(pos: T -> Position, tolerance: int, objs: seq<T>, order: string): seq<T> {
    if objs == [] then []
    else if order == "top_to_bottom" then SortTopToBottom(pos, objs)
    else if order == "left_to_right" then SortLeftToRight(pos, objs)
    else ReadingOrder(pos, tolerance, objs)
  }

  /** Every order mode returns a permutation of its input; empty input gives empty output. */
  lemma SortPermutation<T>(pos: T -> Position, tolerance: int, objs: seq<T>, order: string)
    ensures multiset(SortSpec(pos, tolerance, objs, order)) == multiset(objs)
    ensures |SortSpec(pos, tolerance, objs, order)| == |objs|
  {
    var r := SortSpec(pos, tolerance, objs, order);
    if objs != [] && order != "top_to_bottom" && order != "left_to_right" {
      ReadingOrderPermutation(pos, tolerance, objs);
    }
    assert |multiset(r)| == |multiset(objs)|;
  }

  /** Sorting again under `top_to_bottom` or `left_to_right` changes nothing. */
  lemma AxisSortIdempotent<T>(pos: T -> Position, objs: seq<T>)
    ensures SortTopToBottom(pos, SortTopToBottom(pos, objs)) == SortTopToBottom(pos, objs)
    ensures SortLeftToRight(pos, SortLeftToRight(pos, objs)) == SortLeftToRight(pos, objs)
  {
    SortBySorted(ByY(pos), objs);
    SortBySortedIsIdentity(ByY(pos), SortTopToBottom(pos, objs));
    SortBySorted(ByX(pos), objs);
    SortBySortedIsIdentity(ByX(pos), SortLeftToRight(pos, objs));
  }

  lemma SortedAppendParts<T>(le: (T, T) -> bool, a: seq<T>, b: seq<T>)
    requires SortedBy(le, a + b)
    ensures SortedBy(le, a) && SortedBy(le, b)
    ensures forall x, y | x in a && y in b :: le(x, y)
  {
    var ab := a + b;
    forall i, j | 0 <= i < j < |a|
      ensures le(a[i], a[j])
    {
      assert a[i] == ab[i] && a[j] == ab[j];
    }
    forall i, j | 0 <= i < j < |b|
      ensures le(b[i], b[j])
    {
      assert b[i] == ab[|a| + i] && b[j] == ab[|a| + j];
    }
    forall x, y | x in a && y in b
      ensures le(x, y)
    {
      var i :| 0 <= i < |a| && a[i] == x;
      var j :| 0 <= j < |b| && b[j] == y;
      assert ab[i] == x && ab[|a| + j] == y;
    }
  }

  lemma {:induction false} InFlatten<T>(rows: seq<seq<T>>, k: nat, y: T)
    requires k < |rows| && y in rows[k]
    ensures y in Flatten(rows)
  {
    if k > 0 {
      InFlatten(rows[1..], k - 1, y);
    }
  }

  lemma {:induction false} FromFlatten<T>(rows: seq<seq<T>>, y: T) returns (k: nat)
    requires y in Flatten(rows)
    ensures k < |rows| && y in rows[k]
  {
    if y in rows[0] {
      k := 0;
    } else {
      var j := FromFlatten(rows[1..], y);
      k := j + 1;
    }
  }

  /** The rows of a sorted list are sorted, and no member of a row lies after a member of a
      later row. */
  lemma {:induction false} FlattenSorted<T>(le: (T, T) -> bool, rows: seq<seq<T>>)
    requires SortedBy(le, Flatten(rows))
    ensures forall k | 0 <= k < |rows| :: SortedBy(le, rows[k])
    ensures forall k, j, x, y | 0 <= k < j < |rows| && x in rows[k] && y in rows[j] :: le(x, y)
  {
    if rows != [] {
      var rest := rows[1..];
      SortedAppendParts(le, rows[0], Flatten(rest));
      FlattenSorted(le, rest);
      forall k | 0 <= k < |rows|
        ensures SortedBy(le, rows[k])
      {
        if k > 0 {
          assert rows[k] == rest[k - 1];
        }
      }
      forall k, j, x, y | 0 <= k < j < |rows| && x in rows[k] && y in rows[j]
        ensures le(x, y)
      {
        assert rows[j] == rest[j - 1];
        if k == 0 {
          InFlatten(rest, j - 1, y);
        } else {
          assert rows[k] == rest[k - 1];
        }
      }
    }
  }

  /** Each row sorted by vertical centre. */
  ghost function ResortEachRow<T>(pos: T -> Position, rows: seq<seq<T>>): (r: seq<seq<T>>)
    ensures |r| == |rows|
  {
    seq(|rows|, k requires 0 <= k < |rows| => SortTopToBottom(pos, rows[k]))
  }

  /** Objects of different rows are in vertical order. */
  ghost predicate RowsInYOrder<T>(pos: T -> Position, rows: seq<seq<T>>) {
    forall k, j, x, y | 0 <= k < j < |rows| && x in rows[k] && y in rows[j] :: YKey(pos(x)) <= YKey(pos(y))
  }

  lemma SortFlattenHead<T>(pos: T -> Position, rows: seq<seq<T>>)
    requires rows != [] && RowsInYOrder(pos, rows)
    ensures SortTopToBottom(pos, Flatten(rows)) == SortTopToBottom(pos, rows[0]) + SortTopToBottom(pos, Flatten(rows[1..]))
    ensures RowsInYOrder(pos, rows[1..])
  {
    var rest := rows[1..];
    forall x, y | x in rows[0] && y in Flatten(rest)
      ensures ByY(pos)(x, y)
    {
      var j := FromFlatten(rest, y);
      assert rows[j + 1] == rest[j];
    }
    SortByAppend(ByY(pos), rows[0], Flatten(rest));
    forall k, j, x, y | 0 <= k < j < |rest| && x in rest[k] && y in rest[j]
      ensures YKey(pos(x)) <= YKey(pos(y))
    {
      assert rest[k] == rows[k + 1] && rest[j] == rows[j + 1];
    }
  }

  lemma ResortEachRowHead<T>(pos: T -> Position, rows: seq<seq<T>>)
    requires rows != []
    ensures Flatten(ResortEachRow(pos, rows)) == SortTopToBottom(pos, rows[0]) + Flatten(ResortEachRow(pos, rows[1..]))
  {
    var all, tail := ResortEachRow(pos, rows), ResortEachRow(pos, rows[1..]);
    assert all[1..] == tail by {
      forall i | 0 <= i < |tail|
        ensures all[1..][i] == tail[i]
      {
        assert rows[i + 1] == rows[1..][i];
      }
    }
  }

  /** Rows whose vertical ranges follow one another sort vertically one row at a time. */
  lemma {:induction false} SortFlattenByY<T>(pos: T -> Position, rows: seq<seq<T>>)
    requires RowsInYOrder(pos, rows)
    ensures SortTopToBottom(pos, Flatten(rows)) == Flatten(ResortEachRow(pos, rows))
  {
    if rows != [] {
      SortFlattenHead(pos, rows);
      SortFlattenByY(pos, rows[1..]);
      ResortEachRowHead(pos, rows);
    }
  }

  /** Dropping the first of well-formed rows leaves well-formed rows that the first row's
      anchor does not reach, and the first row's other members are within its tolerance. */
  lemma WellFormedTail<T>(pos: T -> Position, tolerance: int, rows: seq<seq<T>>)
    requires rows != [] && RowsWellFormed(pos, tolerance, rows)
    ensures RowsWellFormed(pos, tolerance, rows[1..])
    ensures forall m | m in rows[0][1..] :: SameRow(YKey(pos(rows[0][0])), YKey(pos(m)), tolerance)
    ensures rows[1..] != [] ==> rows[1..][0] != [] && !SameRow(YKey(pos(rows[0][0])), YKey(pos(rows[1..][0][0])), tolerance)
  {
    var rest := rows[1..];
    forall k | 0 <= k < |rest| - 1
      ensures !SameRow(YKey(pos(rest[k][0])), YKey(pos(rest[k + 1][0])), tolerance)
    {
      assert rest[k] == rows[k + 1] && rest[k + 1] == rows[k + 2];
    }
    forall k, m | 0 <= k < |rest| && m in rest[k]
      ensures SameRow(YKey(pos(rest[k][0])), YKey(pos(m)), tolerance)
    {
      assert rest[k] == rows[k + 1];
    }
    forall m | m in rows[0][1..]
      ensures SameRow(YKey(pos(rows[0][0])), YKey(pos(m)), tolerance)
    {
      assert m in rows[0];
    }
  }

  /** The walk from a row in progress over a run of its own members and then over well-formed
      rows gives the finished row and then those rows. */
  lemma {:induction false} RowsFromSegments<T>(pos: T -> Position, tolerance: int, row: seq<T>, anchor: int,
                                               seg: seq<T>, more: seq<seq<T>>)
    requires forall m | m in seg :: SameRow(anchor, YKey(pos(m)), tolerance)
    requires more != [] ==> more[0] != [] && !SameRow(anchor, YKey(pos(more[0][0])), tolerance)
    requires RowsWellFormed(pos, tolerance, more)
    decreases |more|, |seg|
    ensures RowsFrom(pos, tolerance, row, anchor, seg + Flatten(more)) == [row + seg] + more
  {
    if seg != [] {
      assert (seg + Flatten(more))[0] == seg[0] && seg[0] in seg;
      assert (seg + Flatten(more))[1..] == seg[1..] + Flatten(more);
      RowsFromSegments(pos, tolerance, row + [seg[0]], anchor, seg[1..], more);
      assert row + [seg[0]] + seg[1..] == row + seg;
    } else if more == [] {
      assert seg + Flatten(more) == [] && row + seg == row;
    } else {
      var first := more[0];
      var rest := more[1..];
      var all := seg + Flatten(more);
      assert all[0] == first[0] && all[1..] == first[1..] + Flatten(rest) && row + seg == row by {
        assert all == [first[0]] + (first[1..] + Flatten(rest));
      }
      assert RowsFrom(pos, tolerance, [first[0]], YKey(pos(first[0])), first[1..] + Flatten(rest)) == more by {
        WellFormedTail(pos, tolerance, more);
        RowsFromSegments(pos, tolerance, [first[0]], YKey(pos(first[0])), first[1..], rest);
        assert [first[0]] + first[1..] == first;
        assert [first] + rest == more;
      }
    }
  }

  /** Well-formed rows are the rows of their own concatenation: the rows of a list are the only
      well-formed way to cut it. */
  lemma RowsOfWellFormed<T>(pos: T -> Position, tolerance: int, rows: seq<seq<T>>)
    requires RowsWellFormed(pos, tolerance, rows)
    ensures Rows(pos, tolerance, Flatten(rows)) == rows
  {
    if rows != [] {
      var first := rows[0];
      var rest := rows[1..];
      var all := Flatten(rows);
      assert all[0] == first[0] && all[1..] == first[1..] + Flatten(rest) by {
        assert all == [first[0]] + (first[1..] + Flatten(rest));
      }
      WellFormedTail(pos, tolerance, rows);
      RowsFromSegments(pos, tolerance, [first[0]], YKey(pos(first[0])), first[1..], rest);
      assert [first[0]] + first[1..] == first;
      assert [first] + rest == rows;
    } else {
      assert Flatten(rows) == [];
    }
  }

  /** Sorting a vertically sorted row horizontally, then vertically, then horizontally again
      gives the first horizontal sort back: objects with equal horizontal centres are ordered
      by vertical centre on both passes. */
  lemma ResortRow<T>(pos: T -> Position, row: seq<T>)
    requires SortedBy(ByY(pos), row)
    ensures SortLeftToRight(pos, SortTopToBottom(pos, SortLeftToRight(pos, row))) == SortLeftToRight(pos, row)
  {
    var a := SortLeftToRight(pos, row);
    var b := SortTopToBottom(pos, a);
    var c := SortLeftToRight(pos, b);
    SortBySorted(ByX(pos), b);
    SortBySorted(ByX(pos), row);
    SortBySorted(ByY(pos), a);
    forall z | z in c
      ensures Ties(ByX(pos), c, z) == Ties(ByX(pos), a, z)
    {
      SortByStable(ByX(pos), b, z);
      SortByStable(ByX(pos), row, z);
      var tb := Ties(ByX(pos), b, z);
      var ta := Ties(ByX(pos), a, z);
      TiesMultiset(ByX(pos), b, a, z);
      TiesSorted(ByX(pos), ByY(pos), b, z);
      TiesSorted(ByX(pos), ByY(pos), row, z);
      forall w | w in tb
        ensures Ties(ByY(pos), tb, w) == Ties(ByY(pos), ta, w)
      {
        TiesCommute(ByY(pos), ByX(pos), b, w, z);
        TiesCommute(ByY(pos), ByX(pos), a, w, z);
        SortByStable(ByY(pos), a, w);
      }
      SortedTiesUnique(ByY(pos), tb, ta);
    }
    SortedTiesUnique(ByX(pos), c, a);
  }

  /** The first object of a vertically sorted permutation of a vertically sorted list has the
      centre of that list's first object. */
  lemma FirstKeyKept<T>(pos: T -> Position, p: seq<T>, r: seq<T>)
    requires r != [] && multiset(p) == multiset(r)
    requires SortedBy(ByY(pos), p) && SortedBy(ByY(pos), r)
    ensures p != [] && YKey(pos(p[0])) == YKey(pos(r[0]))
  {
    assert |p| == |multiset(p)| == |multiset(r)| == |r|;
    assert p[0] in multiset(r) && r[0] in multiset(p);
    var i :| 0 <= i < |r| && r[i] == p[0];
    var j :| 0 <= j < |p| && p[j] == r[0];
  }

  /** With a negative tolerance no two objects share a row, so every row is a single object and
      sorting within rows changes nothing. */
  lemma {:induction false} NegativeToleranceRows<T>(pos: T -> Position, tolerance: int, x: T, anchor: int, rest: seq<T>)
    requires tolerance < 0
    decreases |rest|
    ensures Flatten(SortEachRow(pos, RowsFrom(pos, tolerance, [x], anchor, rest))) == [x] + rest
  {
    if rest == [] {
      FlattenSingletonRow(pos, x, []);
      assert [[x]] + [] == [[x]];
    } else {
      var next := RowsFrom(pos, tolerance, [rest[0]], YKey(pos(rest[0])), rest[1..]);
      NoSharedRow(pos, tolerance, x, anchor, rest);
      assert Flatten(SortEachRow(pos, next)) == rest by {
        NegativeToleranceRows(pos, tolerance, rest[0], YKey(pos(rest[0])), rest[1..]);
        assert [rest[0]] + rest[1..] == rest;
      }
      FlattenSingletonRow(pos, x, next);
    }
  }

  lemma NoSharedRow<T>(pos: T -> Position, tolerance: int, x: T, anchor: int, rest: seq<T>)
    requires tolerance < 0 && rest != []
    ensures RowsFrom(pos, tolerance, [x], anchor, rest)
         == [[x]] + RowsFrom(pos, tolerance, [rest[0]], YKey(pos(rest[0])), rest[1..])
  {
    assert !SameRow(anchor, YKey(pos(rest[0])), tolerance);
  }

  lemma FlattenSingletonRow<T>(pos: T -> Position, x: T, more: seq<seq<T>>)
    ensures Flatten(SortEachRow(pos, [[x]] + more)) == [x] + Flatten(SortEachRow(pos, more))
  {
    SortEachRowCons(pos, x, more);
    var r := [[x]] + SortEachRow(pos, more);
    assert r[0] == [x] && r[1..] == SortEachRow(pos, more);
  }

  lemma SortEachRowCons<T>(pos: T -> Position, x: T, more: seq<seq<T>>)
    ensures SortEachRow(pos, [[x]] + more) == [[x]] + SortEachRow(pos, more)
  {
    assert SortLeftToRight(pos, [x]) == [x] by {
      assert [x][1..] == [];
    }
  }

  /** Sorting the reading order again in reading order changes nothing, whatever the tolerance. */
  lemma ReadingOrderIdempotent<T>(pos: T -> Position, tolerance: int, objs: seq<T>)
    ensures ReadingOrder(pos, tolerance, ReadingOrder(pos, tolerance, objs)) == ReadingOrder(pos, tolerance, objs)
  {
    if objs == [] {
    } else if tolerance < 0 {
      var ys := SortTopToBottom(pos, objs);
      NegativeToleranceRows(pos, tolerance, ys[0], YKey(pos(ys[0])), ys[1..]);
      assert [ys[0]] + ys[1..] == ys;
      var once := ReadingOrder(pos, tolerance, objs);
      assert once == ys;
      AxisSortIdempotent(pos, objs);
      var zs := SortTopToBottom(pos, once);
      NegativeToleranceRows(pos, tolerance, zs[0], YKey(pos(zs[0])), zs[1..]);
      assert [zs[0]] + zs[1..] == zs;
    } else {
      ReadingOrderIdempotentRows(pos, tolerance, objs);
    }
  }

  /** The rows of the vertically sorted list: they cover it, are well formed, each is sorted
      vertically, and they follow one another vertically. */
  lemma SortedRowsFacts<T>(pos: T -> Position, tolerance: int, ys: seq<T>)
    requires tolerance >= 0 && SortedBy(ByY(pos), ys)
    ensures var rows := Rows(pos, tolerance, ys);
      && Flatten(rows) == ys && RowsWellFormed(pos, tolerance, rows)
      && (forall k | 0 <= k < |rows| :: SortedBy(ByY(pos), rows[k]))
      && RowsInYOrder(pos, rows)
  {
    var rows := Rows(pos, tolerance, ys);
    RowsPartition(pos, tolerance, ys);
    FlattenSorted(ByY(pos), rows);
    forall k, j, x, y | 0 <= k < j < |rows| && x in rows[k] && y in rows[j]
      ensures YKey(pos(x)) <= YKey(pos(y))
    {
      assert ByY(pos)(x, y);
    }
  }

  lemma SortEachRowInYOrder<T>(pos: T -> Position, rows: seq<seq<T>>)
    requires RowsInYOrder(pos, rows)
    ensures RowsInYOrder(pos, SortEachRow(pos, rows))
  {
    var xs := SortEachRow(pos, rows);
    forall k, j, x, y | 0 <= k < j < |xs| && x in xs[k] && y in xs[j]
      ensures YKey(pos(x)) <= YKey(pos(y))
    {
      SortedRowMember(pos, rows, k, x);
      SortedRowMember(pos, rows, j, y);
    }
  }

  lemma SortedRowMember<T>(pos: T -> Position, rows: seq<seq<T>>, k: nat, x: T)
    requires k < |rows| && x in SortEachRow(pos, rows)[k]
    ensures x in rows[k]
  {
    assert x in multiset(SortLeftToRight(pos, rows[k]));
  }

  /** Re-sorting the horizontally sorted rows vertically gives well-formed rows with the same
      anchors, and sorting those horizontally again gives the same rows back. */
  lemma ResortRows<T>(pos: T -> Position, tolerance: int, rows: seq<seq<T>>)
    requires RowsWellFormed(pos, tolerance, rows)
    requires forall k | 0 <= k < |rows| :: SortedBy(ByY(pos), rows[k])
    ensures var xs := SortEachRow(pos, rows);
      && RowsWellFormed(pos, tolerance, ResortEachRow(pos, xs))
      && SortEachRow(pos, ResortEachRow(pos, xs)) == xs
  {
    var xs := SortEachRow(pos, rows);
    var ps := ResortEachRow(pos, xs);
    forall k | 0 <= k < |ps|
      ensures multiset(ps[k]) == multiset(rows[k])
      ensures ps[k] != [] && YKey(pos(ps[k][0])) == YKey(pos(rows[k][0]))
      ensures SortLeftToRight(pos, ps[k]) == xs[k]
    {
      SortBySorted(ByY(pos), xs[k]);
      FirstKeyKept(pos, ps[k], rows[k]);
      ResortRow(pos, rows[k]);
    }
    forall k, m | 0 <= k < |ps| && m in ps[k]
      ensures SameRow(YKey(pos(ps[k][0])), YKey(pos(m)), tolerance)
    {
      assert m in multiset(ps[k]);
      assert m in rows[k];
    }
  }

  lemma ReadingOrderIdempotentRows<T>(pos: T -> Position, tolerance: int, objs: seq<T>)
    requires tolerance >= 0 && objs != []
    ensures ReadingOrder(pos, tolerance, ReadingOrder(pos, tolerance, objs)) == ReadingOrder(pos, tolerance, objs)
  {
    var ys := SortTopToBottom(pos, objs);
    var rows := Rows(pos, tolerance, ys);
    var xs := SortEachRow(pos, rows);
    var once := Flatten(xs);
    assert once == ReadingOrder(pos, tolerance, objs);
    SortBySorted(ByY(pos), objs);
    SortedRowsFacts(pos, tolerance, ys);
    SortEachRowInYOrder(pos, rows);
    SortFlattenByY(pos, xs);
    var ps := ResortEachRow(pos, xs);
    ResortRows(pos, tolerance, rows);
    RowsOfWellFormed(pos, tolerance, ps);
    assert once != [] by {
      ReadingOrderPermutation(pos, tolerance, objs);
      assert |multiset(once)| == |multiset(objs)|;
    }
  }

  /** Sorting a sorted list again in the same order mode changes nothing. */
  lemma SortIdempotent<T>(pos: T -> Position, tolerance: int, objs: seq<T>, order: string)
    ensures SortSpec(pos, tolerance, SortSpec(pos, tolerance, objs, order), order) == SortSpec(pos, tolerance, objs, order)
  {
    var once := SortSpec(pos, tolerance, objs, order);
    SortPermutation(pos, tolerance, objs, order);
    if objs != [] {
      if order == "top_to_bottom" || order == "left_to_right" {
        AxisSortIdempotent(pos, objs);
      } else {
        ReadingOrderIdempotent(pos, tolerance, objs);
      }
    }
  }

  /** `sort_grid_order`: the reading order. */
  method SortGridOrder<T>(pos: T -> Position, tolerance: int, objs: seq<T>) returns (result: seq<T>)
    ensures result == ReadingOrder(pos, tolerance, objs)
  {
    result := SortReadingOrder(pos, tolerance, objs);
  }

  /** `sort`, the entry point. */
  method Sort<T>(pos: T -> Position, tolerance: int, objs: seq<T>, order: string) returns (result: seq<T>)
    ensures result == SortSpec(pos, tolerance, objs, order)
  {
    if objs == [] {
      return [];
    }
    if order == "top_to_bottom" {
      result := SortTopToBottom(pos, objs);
    } else if order == "left_to_right" {
      result := SortLeftToRight(pos, objs);
    } else if order == "grid_order" {
      result := SortGridOrder(pos, tolerance, objs);
    } else {
      result := SortReadingOrder(pos, tolerance, objs);
    }
  }

  /** The last index at which `x` occurs among the first `n` elements of `s`. */
  function LastIndexBelow<T(==)>(s: seq<T>, x: T, n: nat): (r: int)
    requires n <= |s|
    ensures -1 <= r < n
    ensures r >= 0 ==> s[r] == x
  {
    if n == 0 then -1 else if s[n - 1] == x then n - 1 else LastIndexBelow(s, x, n - 1)
  }

  /** No later index below `n` holds `x`. */
  lemma {:induction false} LastIndexBelowIsLast<T>(s: seq<T>, x: T, n: nat)
    requires n <= |s|
    ensures forall j | LastIndexBelow(s, x, n) < j < n :: s[j] != x
  {
    if n > 0 && s[n - 1] != x {
      LastIndexBelowIsLast(s, x, n - 1);
    }
  }

  /** In a list without repeated objects, an element's last index is its index. */
  lemma LastIndexOfDistinct<T>(s: seq<T>, i: nat)
    requires i < |s|
    requires forall a, b | 0 <= a < b < |s| :: s[a] != s[b]
    ensures LastIndexBelow(s, s[i], |s|) == i
  {
    LastIndexBelowIsLast(s, s[i], |s|);
  }

  /** A result object (a dictionary) as the sorter's caller builds it: the fields it was built
      with never change, and `order` is added in place by `add_order_numbers`. */
  class LabelObject<T> {
    const item: T
    var order: Option<int>

    constructor (item: T)
      ensures this.item == item && order == None
    {
      this.item := item;
      order := None;
    }
  }

  /** Each of the first `n` objects carries one more than the last index below `n` it occupies. */
  ghost predicate NumberedUpTo<T>(objs: seq<LabelObject<T>>, n: nat)
    requires n <= |objs|
    reads objs
  {
    forall i | 0 <= i < n :: objs[i].order == Some(LastIndexBelow(objs, objs[i], n) + 1)
  }

  /** `add_order_numbers`: walks the list and sets each object's `order` to its index plus one,
      in place. An object listed twice keeps the number of its last occurrence; the list itself
      is returned unchanged. */
  method AddOrderNumbers<T>(objs: seq<LabelObject<T>>) returns (numbered: seq<LabelObject<T>>)
    modifies objs
    ensures numbered == objs
    ensures NumberedUpTo(objs, |objs|)
  {
    var idx := 0;
    while idx < |objs|
      invariant 0 <= idx <= |objs|
      invariant forall i | 0 <= i < idx :: objs[i].order == Some(LastIndexBelow(objs, objs[i], idx) + 1)
    {
      objs[idx].order := Some(idx + 1);
      idx := idx + 1;
    }
    numbered := objs;
  }
}
