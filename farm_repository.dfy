/**
 * The farm repository's listing query, `findWithSort`, modelled by what the finished
 * SQL query means: keep the rows that pass the optional outlier filter (in table order),
 * order them by the requested column, skip `offset` rows, take `pageSize`, and count
 * the whole filtered population.
 */
module FarmRepository {
  import opened Wrappers
  import opened Entities

  /** The `sortBy` argument: `"name" | "createdAt" | "driving_distance"`. */
  datatype SortBy = Name | CreatedAt | DrivingDistance

  /** The pair `getManyAndCount` resolves to: one page of farms and the population size. */
  datatype FarmPage = FarmPage(farms: seq<Farm>, count: nat)

  /** The page and page size a caller that passes none gets. */
  const DefaultPage: int := 1
  const DefaultPageSize: int := 100

  /** The number of rows skipped before the requested page (pages are 1-indexed). */
  function Offset(page: int, pageSize: int): (offset: int)
    ensures page == 1 ==> offset == 0
    ensures page >= 1 && pageSize >= 0 ==> offset >= 0
  {
    (page - 1) * pageSize
  }

  // ---------------------------------------------------------------------------
  // The outlier filter
  // ---------------------------------------------------------------------------

  /** `SUM(yield)` over the given rows. */
  function SumYield(rows: seq<Farm>): real
  {
    if rows == [] then 0.0 else rows[0].cropYield + SumYield(rows[1..])
  }

  /** `SELECT AVG(f.yield) FROM farm f`: the average over the whole table (NULL when empty). */
  function AverageYield(table: seq<Farm>): real
    requires |table| > 0
  {
    SumYield(table) / (|table| as real)
  }

  /**
   * The two WHERE conditions joined by `orWhere`: the yield lies more than 30% of the
   * average above it, or more than 30% of the average below it.
   */
  predicate IsOutlier(y: real, avg: real)
  {
    y > avg * 0.3 + avg || y < avg - avg * 0.3
  }

  /** The rows (in table order) whose yield is an outlier with respect to `avg`. */
  function KeepOutliers(rows: seq<Farm>, avg: real): (kept: seq<Farm>)
    ensures |kept| <= |rows|
    ensures forall f :: f in kept <==> f in rows && IsOutlier(f.cropYield, avg)
  {
    if rows == [] then []
    else if IsOutlier(rows[0].cropYield, avg) then [rows[0]] + KeepOutliers(rows[1..], avg)
    else KeepOutliers(rows[1..], avg)
  }

  /** True when `filter` is truthy: `undefined` and `false` both leave the WHERE clause out. */
  predicate Filtering(filter: Option<bool>)
  {
    filter == Some(true)
  }

  /**
   * The rows the WHERE clause admits, in table order. Over an empty table `AVG` is NULL,
   * every comparison with it is unknown, and no row passes.
   */
  function Population(table: seq<Farm>, filter: Option<bool>): seq<Farm>
  {
    if !Filtering(filter) then table
    else if |table| == 0 then []
    else KeepOutliers(table, AverageYield(table))
  }

  // ---------------------------------------------------------------------------
  // The ORDER BY clause
  // ---------------------------------------------------------------------------

  /** Lexicographic order on strings, character by character. */
  predicate StringLe(a: string, b: string)
  {
    a == [] || (b != [] && (a[0] < b[0] || (a[0] == b[0] && StringLe(a[1..], b[1..]))))
  }

  /** `a` may come before `b` under `ORDER BY farm.<sortBy> ASC`; no order for driving distance. */
  predicate RowLe(sortBy: SortBy, a: Farm, b: Farm)
  {
    match sortBy
    case Name => StringLe(a.name, b.name)
    case CreatedAt => a.createdAt <= b.createdAt
    case DrivingDistance => true
  }

  /** Every row is `RowLe` every later row: the sequence is non-decreasing in the column. */
  predicate Sorted(rows: seq<Farm>, sortBy: SortBy)
  {
    forall i, j :: 0 <= i < j < |rows| ==> RowLe(sortBy, rows[i], rows[j])
  }

  /** Inserts `x` in front of the first row it may precede. */
  function Insert(x: Farm, rows: seq<Farm>, sortBy: SortBy): (r: seq<Farm>)
    ensures multiset(r) == multiset(rows) + multiset{x}
    ensures |r| == |rows| + 1
  {
    if rows == [] then [x]
    else if RowLe(sortBy, x, rows[0]) then [x] + rows
    else
      assert rows == [rows[0]] + rows[1..];
      [rows[0]] + Insert(x, rows[1..], sortBy)
  }

  /** Insertion sort: the database's ordering of the admitted rows (ties: input order). */
  function SortRows(rows: seq<Farm>, sortBy: SortBy): (r: seq<Farm>)
    ensures multiset(r) == multiset(rows)
    ensures Sorted(r, sortBy)
  {
    if rows == [] then []
    else
      var rest := SortRows(rows[1..], sortBy);
      InsertSorted(rows[0], rest, sortBy);
      assert rows == [rows[0]] + rows[1..];
      Insert(rows[0], rest, sortBy)
  }

  /** The admitted rows in the order the query returns them. */
  function Ordered(rows: seq<Farm>, sortBy: SortBy): (r: seq<Farm>)
    ensures |r| == |rows|
  {
    assert |multiset(SortRows(rows, sortBy))| == |multiset(rows)|;
    if sortBy == DrivingDistance then rows else SortRows(rows, sortBy)
  }

  // ---------------------------------------------------------------------------
  // OFFSET / LIMIT and the query itself
  // ---------------------------------------------------------------------------

  function Min(a: int, b: int): int
  {
    if a <= b then a else b
  }

  /** `skip(offset).take(size)` applied to an ordered result. */
  function Window(rows: seq<Farm>, offset: nat, size: nat): seq<Farm>
  {
    if offset >= |rows| then [] else rows[offset..Min(offset + size, |rows|)]
  }

  /**
   * `findWithSort(sortBy, filter, page, pageSize)`: the page of the filtered, ordered
   * population that starts at `Offset(page, pageSize)`, and the population's size.
   */
  function FindWithSort(table: seq<Farm>, sortBy: SortBy, filter: Option<bool>,
                        page: int := DefaultPage, pageSize: int := DefaultPageSize)
    : (r: FarmPage)
    requires page >= 1 && pageSize >= 1
    // the count is the whole filtered population, whatever the page
    ensures r.count == |Population(table, filter)|
    // at most one page, and empty once the offset reaches the count
    ensures |r.farms| <= pageSize
    ensures |r.farms| == if Offset(page, pageSize) >= r.count then 0
                         else Min(pageSize, r.count - Offset(page, pageSize))
    // the page is the contiguous run of the ordered population starting at the offset
    ensures forall i :: 0 <= i < |r.farms| ==>
              r.farms[i] == Ordered(Population(table, filter), sortBy)[Offset(page, pageSize) + i]
    // name / createdAt: non-decreasing in that column
    ensures Sorted(r.farms, sortBy)
    // every farm returned is a row of the table that passed the filter
    ensures forall f :: f in r.farms ==>
              f in table && (Filtering(filter) ==> IsOutlier(f.cropYield, AverageYield(table)))
    // driving_distance without the filter: the table's own order, unfiltered
    ensures sortBy == DrivingDistance && !Filtering(filter) ==>
              forall i :: 0 <= i < |r.farms| ==> r.farms[i] == table[Offset(page, pageSize) + i]
  {
    var population := Population(table, filter);
    var farms := Window(Ordered(population, sortBy), Offset(page, pageSize), pageSize);
    PageFacts(table, sortBy, filter, Offset(page, pageSize), pageSize);
    FarmPage(farms, |population|)
  }

  // ---------------------------------------------------------------------------
  // Lemmas
  // ---------------------------------------------------------------------------

  lemma {:induction false} StringLeTotal(a: string, b: string)
    ensures StringLe(a, b) || StringLe(b, a)
  {
    if a != [] && b != [] && a[0] == b[0] {
      StringLeTotal(a[1..], b[1..]);
    }
  }

  lemma {:induction false} StringLeTransitive(a: string, b: string, c: string)
    requires StringLe(a, b) && StringLe(b, c)
    ensures StringLe(a, c)
  {
    if a != [] && b != [] && c != [] && a[0] == b[0] && b[0] == c[0] {
      StringLeTransitive(a[1..], b[1..], c[1..]);
    }
  }

  /** Any two rows are comparable under a sort column. */
  lemma RowLeTotal(sortBy: SortBy, a: Farm, b: Farm)
    ensures RowLe(sortBy, a, b) || RowLe(sortBy, b, a)
  {
    if sortBy == Name {
      StringLeTotal(a.name, b.name);
    }
  }

  lemma RowLeTransitive(sortBy: SortBy, a: Farm, b: Farm, c: Farm)
    requires RowLe(sortBy, a, b) && RowLe(sortBy, b, c)
    ensures RowLe(sortBy, a, c)
  {
    if sortBy == Name {
      StringLeTransitive(a.name, b.name, c.name);
    }
  }

  /** Inserting into a sorted sequence keeps it sorted. */
  lemma {:induction false} InsertSorted(x: Farm, rows: seq<Farm>, sortBy: SortBy)
    requires Sorted(rows, sortBy)
    ensures Sorted(Insert(x, rows, sortBy), sortBy)
  {
    if rows != [] && RowLe(sortBy, x, rows[0]) {
      var r := [x] + rows;
      forall i, j | 0 <= i < j < |r| ensures RowLe(sortBy, r[i], r[j]) {
        if i == 0 && j > 1 {
          RowLeTransitive(sortBy, x, rows[0], rows[j - 1]);
        }
      }
    } else if rows != [] {
      RowLeTotal(sortBy, x, rows[0]);
      var tail := Insert(x, rows[1..], sortBy);
      InsertSorted(x, rows[1..], sortBy);
      assert Sorted(rows[1..], sortBy) by {
        forall i, j | 0 <= i < j < |rows[1..]| ensures RowLe(sortBy, rows[1..][i], rows[1..][j]) {
          assert rows[1..][i] == rows[i + 1] && rows[1..][j] == rows[j + 1];
        }
      }
      forall k | 0 <= k < |tail| ensures RowLe(sortBy, rows[0], tail[k]) {
        assert tail[k] in multiset(tail);
        assert tail[k] == x || tail[k] in multiset(rows[1..]);
        if tail[k] != x {
          var m :| 0 <= m < |rows[1..]| && rows[1..][m] == tail[k];
          assert rows[m + 1] == tail[k];
        }
      }
      var r := [rows[0]] + tail;
      forall i, j | 0 <= i < j < |r| ensures RowLe(sortBy, r[i], r[j]) {
        if i == 0 {
          assert r[j] == tail[j - 1];
        } else {
          assert r[i] == tail[i - 1] && r[j] == tail[j - 1];
        }
      }
    }
  }

  /** Ordering only rearranges the admitted rows. */
  lemma OrderedPermutes(rows: seq<Farm>, sortBy: SortBy)
    ensures multiset(Ordered(rows, sortBy)) == multiset(rows)
    ensures forall f :: f in Ordered(rows, sortBy) <==> f in rows
    ensures |Ordered(rows, sortBy)| == |rows|
  {
    var o := Ordered(rows, sortBy);
    assert |multiset(o)| == |multiset(rows)|;
    forall f ensures f in o <==> f in rows {
      assert f in o <==> f in multiset(o);
      assert f in rows <==> f in multiset(rows);
    }
  }

  /** What the window of the ordered population taken by `FindWithSort` satisfies. */
  lemma PageFacts(table: seq<Farm>, sortBy: SortBy, filter: Option<bool>, offset: nat, size: nat)
    ensures var population := Population(table, filter);
            var ordered := Ordered(population, sortBy);
            var w := Window(ordered, offset, size);
            && |w| == (if offset >= |population| then 0 else Min(size, |population| - offset))
            && (forall i :: 0 <= i < |w| ==> w[i] == ordered[offset + i])
            && Sorted(w, sortBy)
            && (forall f :: f in w ==>
                  f in table && (Filtering(filter) ==> IsOutlier(f.cropYield, AverageYield(table))))
            && (sortBy == DrivingDistance && !Filtering(filter) ==>
                  forall i :: 0 <= i < |w| ==> w[i] == table[offset + i])
  {
    var population := Population(table, filter);
    var ordered := Ordered(population, sortBy);
    var w := Window(ordered, offset, size);
    assert |ordered| == |population| by {
      OrderedPermutes(population, sortBy);
    }
    WindowIsRun(ordered, offset, size);
    assert Sorted(w, sortBy) by {
      SortedWindow(ordered, sortBy, offset, size);
    }
    assert forall f :: f in w ==> f in table && (Filtering(filter) ==> IsOutlier(f.cropYield, AverageYield(table))) by {
      OrderedPermutes(population, sortBy);
      PopulationMembers(table, filter);
    }
  }

  /** A window is the run of rows starting at `offset`, at most `size` long. */
  lemma WindowIsRun(rows: seq<Farm>, offset: nat, size: nat)
    ensures var w := Window(rows, offset, size);
            && |w| == (if offset >= |rows| then 0 else Min(size, |rows| - offset))
            && (forall i :: 0 <= i < |w| ==> w[i] == rows[offset + i])
            && (forall f :: f in w ==> f in rows)
  {
  }

  /** Any window of a sorted sequence is sorted. */
  lemma SortedWindow(rows: seq<Farm>, sortBy: SortBy, offset: nat, size: nat)
    requires Sorted(rows, sortBy)
    ensures Sorted(Window(rows, offset, size), sortBy)
  {
    var w := Window(rows, offset, size);
    forall i, j | 0 <= i < j < |w| ensures RowLe(sortBy, w[i], w[j]) {
      assert w[i] == rows[offset + i] && w[j] == rows[offset + j];
    }
  }

  /** The filtered population is exactly the table's outliers (or the whole table). */
  lemma PopulationMembers(table: seq<Farm>, filter: Option<bool>)
    ensures !Filtering(filter) ==> Population(table, filter) == table
    ensures forall f :: f in Population(table, filter) <==>
              f in table && (Filtering(filter) ==> IsOutlier(f.cropYield, AverageYield(table)))
  {
  }

  /** The outlier filter keeps table order: it distributes over concatenation. */
  lemma {:induction false} KeepOutliersAppend(a: seq<Farm>, b: seq<Farm>, avg: real)
    ensures KeepOutliers(a + b, avg) == KeepOutliers(a, avg) + KeepOutliers(b, avg)
  {
    if a != [] {
      assert (a + b)[1..] == a[1..] + b;
      KeepOutliersAppend(a[1..], b, avg);
    } else {
      assert a + b == b;
    }
  }

  lemma {:induction false} SumOfUniform(rows: seq<Farm>, y: real)
    requires forall i :: 0 <= i < |rows| ==> rows[i].cropYield == y
    ensures SumYield(rows) == (|rows| as real) * y
  {
    if rows != [] {
      SumOfUniform(rows[1..], y);
    }
  }

  /** A filter that admits none of the rows leaves nothing. */
  lemma {:induction false} NothingToKeep(rows: seq<Farm>, avg: real)
    requires forall i :: 0 <= i < |rows| ==> !IsOutlier(rows[i].cropYield, avg)
    ensures KeepOutliers(rows, avg) == []
  {
    if rows != [] {
      NothingToKeep(rows[1..], avg);
    }
  }

  /**
   * When every farm has the same positive yield the average is that yield, and since
   * both comparisons are strict no farm is an outlier (this covers a single-farm table).
   */
  lemma UniformYieldHasNoOutliers(table: seq<Farm>, y: real)
    requires |table| > 0 && y > 0.0
    requires forall i :: 0 <= i < |table| ==> table[i].cropYield == y
    ensures AverageYield(table) == y
    ensures Population(table, Some(true)) == []
  {
    var n := |table| as real;
    assert AverageYield(table) == y by {
      SumOfUniform(table, y);
      assert SumYield(table) / n == (n * y) / n;
    }
    assert !IsOutlier(y, y);
    NothingToKeep(table, y);
  }

  /** With a single farm of positive yield the filtered population is empty. */
  lemma SingleFarmIsNoOutlier(f: Farm)
    requires f.cropYield > 0.0
    ensures Population([f], Some(true)) == []
  {
    UniformYieldHasNoOutliers([f], f.cropYield);
  }

  /**
   * Yields 300, 200 and 120: the average is 620/3, the band is (144.67, 268.67), and
   * exactly the farms with 300 and 120 are admitted, in table order.
   */
  lemma OutlierExample(a: Farm, b: Farm, c: Farm)
    requires a.cropYield == 300.0 && b.cropYield == 200.0 && c.cropYield == 120.0
    ensures Population([a, b, c], Some(true)) == [a, c]
  {
    var t := [a, b, c];
    assert t[1..] == [b, c] && [b, c][1..] == [c] && [c][1..] == [];
    assert SumYield([c]) == 120.0;
    assert SumYield([b, c]) == 320.0;
    assert SumYield(t) == 620.0;
    var avg := 620.0 / 3.0;
    assert AverageYield(t) == avg;
    assert KeepOutliers([c], avg) == [c];
    assert KeepOutliers([b, c], avg) == [c];
  }

  /** Row `i` of the ordered population is item `i % pageSize` of page `i / pageSize + 1`. */
  lemma EveryRowOnItsPage(table: seq<Farm>, sortBy: SortBy, filter: Option<bool>, pageSize: int, i: nat)
    requires pageSize >= 1
    requires i < |Population(table, filter)|
    ensures var r := FindWithSort(table, sortBy, filter, i / pageSize + 1, pageSize);
            i % pageSize < |r.farms| && r.farms[i % pageSize] == Ordered(Population(table, filter), sortBy)[i]
  {
    var page := i / pageSize + 1;
    assert Offset(page, pageSize) == (i / pageSize) * pageSize;
    assert (i / pageSize) * pageSize + i % pageSize == i;
  }
}
