/** The stock forecaster: get_last_five_entries_sales and calculate_stock_data. */
module Stock {
  import opened Wrappers
  import opened PyInt

  /** The cell of a row at 0-based position k; a row too short to reach it reads as an empty cell. */
  function Cell(row: seq<string>, k: nat): string
  {
    if k < |row| then row[k] else ""
  }

  /** worksheet.col_values(ind): the cells of 1-based column ind, one per row, top to bottom. */
  function ColValues(table: seq<seq<string>>, ind: nat): (column: seq<string>)
    requires ind >= 1
    ensures |column| == |table|
  {
    seq(|table|, r requires 0 <= r < |table| => Cell(table[r], ind - 1))
  }

  /** Python's s[-5:]: the last five entries, or all of them when there are fewer. */
  function LastEntries(s: seq<string>): seq<string>
  {
    if |s| <= 5 then s else s[|s| - 5..]
  }

  /** What get_last_five_entries_sales returns for the sales worksheet's rows. */
  function LastFive(sales: seq<seq<string>>): (windows: seq<seq<string>>)
    ensures |windows| == 6
    ensures forall k | 0 <= k < 6 :: |windows[k]| <= 5
  {
    seq(6, k requires 0 <= k < 6 => LastEntries(ColValues(sales, k + 1)))
  }

  /** get_last_five_entries_sales, with the sales worksheet's rows passed in. */
  method GetLastFiveEntriesSales(sales: seq<seq<string>>) returns (columnsData: seq<seq<string>>)
    ensures columnsData == LastFive(sales)
    ensures |columnsData| == 6
    ensures forall k | 0 <= k < 6 ::
      var column := ColValues(sales, k + 1);
      && |columnsData[k]| == Min(5, |column|)
      && columnsData[k] == column[|column| - |columnsData[k]|..]
  {
    columnsData := [];
    for ind := 1 to 7
      invariant |columnsData| == ind - 1
      invariant forall k | 0 <= k < ind - 1 :: columnsData[k] == LastEntries(ColValues(sales, k + 1))
    {
      var colData := ColValues(sales, ind);
      columnsData := columnsData + [LastEntries(colData)];
    }
  }

  /**
    One column of calculate_stock_data. The cells are converted with int(), and
    the first bad cell raises. An empty column divides by zero. Otherwise the
    forecast is `estimate` of the column's integers. `estimate` stands for
    round(sum(xs) / len(xs) * 1.1), whose floating-point value is not modelled;
    None stands for the OverflowError raised when the quotient or the rounded
    product does not fit a float.
   */
  function ColumnForecast(column: seq<string>, estimate: seq<int> -> Option<int>): Result<int, Error>
  {
    match ParseAll(column)
    case Failure(e) => Failure(e)
    case Success(intColumn) =>
      if |intColumn| == 0 then Failure(ZeroDivision)
      else
        match estimate(intColumn)
        case None => Failure(Overflow)
        case Some(v) => Success(v)
  }

  /**
    A column's forecast divides by zero exactly when the column is empty. It
    succeeds or overflows exactly when the column is non-empty and every cell is
    an integer literal, and then it succeeds with `estimate` of the converted
    cells whenever `estimate` has a value. Otherwise it fails on the first cell
    that is not an integer literal.
   */
  lemma ColumnForecastMeaning(column: seq<string>, estimate: seq<int> -> Option<int>)
    ensures column == [] ==> ColumnForecast(column, estimate) == Failure(ZeroDivision)
    ensures ColumnForecast(column, estimate) == Failure(ZeroDivision) ==> column == []
    ensures
      var r := ColumnForecast(column, estimate);
      (r.Success? || r == Failure(Overflow)) <==>
        column != [] && forall i | 0 <= i < |column| :: IsIntToken(column[i])
    ensures column != [] && (forall i | 0 <= i < |column| :: IsIntToken(column[i])) ==>
      var r := ColumnForecast(column, estimate);
      && (r.Success? <==> estimate(ParseAll(column).value).Some?)
      && (r.Success? ==> r.value == estimate(ParseAll(column).value).value)
    ensures (exists i | 0 <= i < |column| :: !IsIntToken(column[i])) ==>
      var r := ColumnForecast(column, estimate);
      r.Failure? && r.error.InvalidLiteral? && r == Failure(ParseAll(column).error)
  {
  }

  /** What calculate_stock_data returns: one forecast per column, in column order, or the first column's error. */
  function ForecastAll(columns: seq<seq<string>>, estimate: seq<int> -> Option<int>): (r: Result<seq<int>, Error>)
    ensures r.Success? <==> forall k | 0 <= k < |columns| :: ColumnForecast(columns[k], estimate).Success?
    ensures r.Success? ==>
      && |r.value| == |columns|
      && forall k | 0 <= k < |columns| :: ColumnForecast(columns[k], estimate) == Success(r.value[k])
    ensures r.Failure? ==>
      exists k | 0 <= k < |columns| ::
        && ColumnForecast(columns[k], estimate) == Failure(r.error)
        && forall j | 0 <= j < k :: ColumnForecast(columns[j], estimate).Success?
  {
    if columns == [] then Success([])
    else
      var head := ColumnForecast(columns[0], estimate);
      if head.Failure? then Failure(head.error)
      else
        var rest := columns[1..];
        assert forall k | 1 <= k < |columns| :: columns[k] == rest[k - 1];
        var r := ForecastAll(rest, estimate);
        if r.Failure? then Failure(r.error)
        else Success([head.value] + r.value)
  }

  /** The forecast fails with the error of the first column whose forecast fails. */
  lemma {:induction false} ForecastFailsAt(columns: seq<seq<string>>, estimate: seq<int> -> Option<int>, k: nat)
    requires k < |columns| && ColumnForecast(columns[k], estimate).Failure?
    requires forall j | 0 <= j < k :: ColumnForecast(columns[j], estimate).Success?
    ensures ForecastAll(columns, estimate) == Failure(ColumnForecast(columns[k], estimate).error)
  {
    if k > 0 {
      var rest := columns[1..];
      assert rest[k - 1] == columns[k];
      assert forall j | 0 <= j < k - 1 :: rest[j] == columns[j + 1];
      ForecastFailsAt(rest, estimate, k - 1);
      assert ColumnForecast(columns[0], estimate).Success?;
    }
  }

  /** calculate_stock_data(data) */
  method CalculateStockData(data: seq<seq<string>>, estimate: seq<int> -> Option<int>) returns (r: Result<seq<int>, Error>)
    ensures r == ForecastAll(data, estimate)
  {
    var newStockData: seq<int> := [];
    for k := 0 to |data|
      invariant |newStockData| == k
      invariant forall j | 0 <= j < k :: ColumnForecast(data[j], estimate) == Success(newStockData[j])
    {
      var column := data[k];
      match ParseAll(column) {
        case Failure(e) =>
          ForecastFailsAt(data, estimate, k);
          return Failure(e);
        case Success(intColumn) =>
          if |intColumn| == 0 {
            ForecastFailsAt(data, estimate, k);
            return Failure(ZeroDivision);
          }
          match estimate(intColumn) {
            case None =>
              ForecastFailsAt(data, estimate, k);
              return Failure(Overflow);
            case Some(v) =>
              newStockData := newStockData + [v];
          }
      }
    }
    var expected := ForecastAll(data, estimate);
    assert newStockData == expected.value;
    return Success(newStockData);
  }

  /** An empty column makes the forecast fail; it is a division by zero unless an earlier column already failed. */
  lemma EmptyColumnFails(columns: seq<seq<string>>, estimate: seq<int> -> Option<int>, k: nat)
    requires k < |columns| && columns[k] == []
    ensures ForecastAll(columns, estimate).Failure?
    ensures (forall j | 0 <= j < k :: ColumnForecast(columns[j], estimate).Success?) ==>
      ForecastAll(columns, estimate).error == ZeroDivision
  {
  }

  /** Every window holds an entry per row, up to five, and the last one is the newest row's cell. */
  lemma {:induction false} LastFiveWindows(sales: seq<seq<string>>)
    ensures |LastFive(sales)| == 6
    ensures forall k | 0 <= k < 6 :: |LastFive(sales)[k]| == Min(5, |sales|)
    ensures forall k, i | 0 <= k < 6 && 0 <= i < Min(5, |sales|) ::
      LastFive(sales)[k][i] == Cell(sales[|sales| - Min(5, |sales|) + i], k)
  {
  }

  /**
    One window's forecast succeeds or overflows exactly when the worksheet has
    a row and the window's cells, one per recent row, are integer literals.
   */
  lemma WindowForecast(sales: seq<seq<string>>, estimate: seq<int> -> Option<int>, k: nat)
    requires k < 6
    ensures
      var fc := ColumnForecast(LastFive(sales)[k], estimate);
      (fc.Success? || fc == Failure(Overflow)) <==>
        && |sales| > 0
        && forall r | |sales| - Min(5, |sales|) <= r < |sales| :: IsIntToken(Cell(sales[r], k))
  {
    var window := LastFive(sales)[k];
    var start := |sales| - Min(5, |sales|);
    assert |window| == |sales| - start && (window == [] <==> |sales| == 0) by {
      LastFiveWindows(sales);
    }
    assert (forall i | 0 <= i < |window| :: IsIntToken(window[i])) <==>
           (forall r | start <= r < |sales| :: IsIntToken(Cell(sales[r], k))) by {
      LastFiveWindows(sales);
      assert forall i | 0 <= i < |window| :: window[i] == Cell(sales[start + i], k);
      if forall i | 0 <= i < |window| :: IsIntToken(window[i]) {
        forall r | start <= r < |sales| ensures IsIntToken(Cell(sales[r], k)) {
          assert window[r - start] == Cell(sales[r], k);
        }
      }
    }
    ColumnForecastMeaning(window, estimate);
  }

  /**
    The forecast over the sales worksheet. When it succeeds, the worksheet has a
    row and the first six cells of each of its last five rows (or of all of
    them, when there are fewer) are integer literals. When those cells are
    integer literals, the only way it can still fail is an overflow. It can
    divide by zero only when the worksheet is empty.
   */
  lemma ForecastOfSales(sales: seq<seq<string>>, estimate: seq<int> -> Option<int>)
    ensures ForecastAll(LastFive(sales), estimate).Success? ==>
      && |sales| > 0
      && forall r, k | |sales| - Min(5, |sales|) <= r < |sales| && 0 <= k < 6 :: IsIntToken(Cell(sales[r], k))
    ensures
      && |sales| > 0
      && (forall r, k | |sales| - Min(5, |sales|) <= r < |sales| && 0 <= k < 6 :: IsIntToken(Cell(sales[r], k)))
      ==> ForecastAll(LastFive(sales), estimate).Success? || ForecastAll(LastFive(sales), estimate) == Failure(Overflow)
    ensures ForecastAll(LastFive(sales), estimate) == Failure(ZeroDivision) ==> sales == []
  {
    var columns := LastFive(sales);
    var start := |sales| - Min(5, |sales|);
    LastFiveWindows(sales);
    forall k | 0 <= k < 6 {
      WindowForecast(sales, estimate, k);
    }
    if ForecastAll(columns, estimate).Success? {
      forall r, k | start <= r < |sales| && 0 <= k < 6 ensures IsIntToken(Cell(sales[r], k)) {
        assert ColumnForecast(columns[k], estimate).Success?;
      }
    }
    if sales != [] && ForecastAll(columns, estimate).Failure? {
      var k :| 0 <= k < 6 && ColumnForecast(columns[k], estimate) == Failure(ForecastAll(columns, estimate).error);
      ColumnForecastMeaning(columns[k], estimate);
      assert columns[k] != [];
    }
  }
}
