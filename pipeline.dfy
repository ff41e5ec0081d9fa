/**
  The spreadsheet the program works on, and main(): collect the sales, append
  them, derive and append the surplus, forecast and append the stock.
 */
module Pipeline {
  import opened Wrappers
  import opened PyInt
  import opened Tokens
  import opened Input
  import opened Surplus
  import opened Stock

  datatype Worksheet = SalesSheet | SurplusSheet | StockSheet

  /** The cells of a row of integers as the worksheet gives them back. */
  function RenderRow(data: seq<int>): seq<string>
  {
    seq(|data|, i requires 0 <= i < |data| => Show(data[i]))
  }

  /** A row the program appended converts back to the same integers. */
  lemma {:induction false} RenderRowParses(data: seq<int>)
    ensures ParseAll(RenderRow(data)) == Success(data)
  {
    var row := RenderRow(data);
    forall i | 0 <= i < |data| ensures ParseInt(row[i]) == Some(data[i]) {
      ShowParses(data[i]);
    }
    assert ParseAll(row).value == data;
  }

  /**
    The sales figures main() takes from the console lines, once a line has
    been accepted: the accepted line's pieces converted with int().
   */
  function AcceptedSales(lines: seq<string>): (salesData: seq<int>)
    requires FirstValid(lines) < |lines|
    ensures |salesData| == 6
    ensures forall i | 0 <= i < 6 :: ParseInt(Split(lines[FirstValid(lines)])[i]) == Some(salesData[i])
  {
    ParseAll(Split(lines[FirstValid(lines)])).value
  }

  /** The three worksheets, each the list of its rows' cells (header row included when present). */
  class Spreadsheet {
    var sales: seq<seq<string>>
    var surplus: seq<seq<string>>
    var stock: seq<seq<string>>

    constructor (sales: seq<seq<string>>, surplus: seq<seq<string>>, stock: seq<seq<string>>)
      ensures this.sales == sales && this.surplus == surplus && this.stock == stock
    {
      this.sales := sales;
      this.surplus := surplus;
      this.stock := stock;
    }

    /** update_worksheet(data, worksheet): append one row; the other worksheets are untouched. */
    method UpdateWorksheet(data: seq<int>, worksheet: Worksheet)
      modifies this
      ensures sales == if worksheet == SalesSheet then old(sales) + [RenderRow(data)] else old(sales)
      ensures surplus == if worksheet == SurplusSheet then old(surplus) + [RenderRow(data)] else old(surplus)
      ensures stock == if worksheet == StockSheet then old(stock) + [RenderRow(data)] else old(stock)
    {
      match worksheet
      case SalesSheet => sales := sales + [RenderRow(data)];
      case SurplusSheet => surplus := surplus + [RenderRow(data)];
      case StockSheet => stock := stock + [RenderRow(data)];
    }

    /**
      main(): `lines` are the console lines, `estimate` the rounding of the
      inflated average (None when it overflows a float). Each stage runs only when the one before it
      succeeded, and an exception leaves the worksheets already appended to
      as they are. The result is the new stock row, or the exception that
      ended the run.
     */
    method Run(lines: seq<string>, estimate: seq<int> -> Option<int>) returns (r: Result<seq<int>, Error>)
      modifies this
      ensures FirstValid(lines) == |lines| ==>
        r == Failure(EndOfInput) && sales == old(sales) && surplus == old(surplus) && stock == old(stock)
      ensures FirstValid(lines) < |lines| ==>
        var salesData := AcceptedSales(lines);
        var surplusData := SurplusOf(old(stock), salesData);
        var stockData := ForecastAll(LastFive(sales), estimate);
        && sales == old(sales) + [RenderRow(salesData)]
        && (surplusData.Failure? ==>
              r == Failure(surplusData.error) && surplus == old(surplus) && stock == old(stock))
        && (surplusData.Success? ==>
              && surplus == old(surplus) + [RenderRow(surplusData.value)]
              && r == stockData
              && stock == if stockData.Success? then old(stock) + [RenderRow(stockData.value)] else old(stock))
      ensures r != Failure(ZeroDivision)
      ensures r.Success? ==> |r.value| == 6
    {
      var data, used := GetSalesData(lines);
      if data.Failure? {
        return Failure(data.error);
      }
      var salesData := ParseAll(data.value).value;
      UpdateWorksheet(salesData, SalesSheet);
      var newSurplusData := CalculateSurplus(stock, salesData);
      if newSurplusData.Failure? {
        return Failure(newSurplusData.error);
      }
      UpdateWorksheet(newSurplusData.value, SurplusSheet);
      var salesColumns := GetLastFiveEntriesSales(sales);
      var stockData := CalculateStockData(salesColumns, estimate);
      ForecastOfSales(sales, estimate);
      if stockData.Failure? {
        return stockData;
      }
      UpdateWorksheet(stockData.value, StockSheet);
      return stockData;
    }
  }
}
