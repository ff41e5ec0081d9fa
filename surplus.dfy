/** The surplus calculator: calculate_surplus_data. */
module Surplus {
  import opened Wrappers
  import opened PyInt

  /**
    The surplus row for the stock table (all its rows, as cell strings) and the
    new sales figures: the last stock row's cells converted with int(), minus
    the sales; zip stops at the shorter row, so only the cells in that range
    are converted.
   */
  function SurplusOf(stock: seq<seq<string>>, salesRow: seq<int>): (r: Result<seq<int>, Error>)
    ensures stock == [] ==> r == Failure(IndexOutOfRange)
    ensures r.Success? ==> stock != [] && |r.value| == Min(|Last(stock)|, |salesRow|)
  {
    if stock == [] then Failure(IndexOutOfRange)
    else
      var stockRow := Last(stock);
      var n := Min(|stockRow|, |salesRow|);
      match ParseAll(stockRow[..n])
      case Failure(e) => Failure(e)
      case Success(stockValues) =>
        Success(seq(n, i requires 0 <= i < n => stockValues[i] - salesRow[i]))
  }

  /**
    An empty stock table has no last row. Otherwise the surplus exists exactly
    when every stock cell in range is an integer literal, has the length of
    the shorter row, and holds stock minus sales at every position; else it
    names the first stock cell that is not an integer literal.
   */
  lemma SurplusOfMeaning(stock: seq<seq<string>>, salesRow: seq<int>)
    ensures stock == [] ==> SurplusOf(stock, salesRow) == Failure(IndexOutOfRange)
    ensures stock != [] ==>
      var r := SurplusOf(stock, salesRow);
      var stockRow := Last(stock);
      var n := Min(|stockRow|, |salesRow|);
      && (r.Success? <==> forall i | 0 <= i < n :: IsIntToken(stockRow[i]))
      && (r.Success? ==>
            && |r.value| == n
            && forall i | 0 <= i < n :: Some(r.value[i] + salesRow[i]) == ParseInt(stockRow[i]))
      && (r.Failure? ==>
            exists i | 0 <= i < n ::
              && !IsIntToken(stockRow[i])
              && r.error == InvalidLiteral(stockRow[i])
              && forall j | 0 <= j < i :: IsIntToken(stockRow[j]))
  {
    if stock != [] {
      SurplusOfConverts(stock, salesRow);
      if SurplusOf(stock, salesRow).Success? {
        SurplusOfValues(stock, salesRow);
      }
    }
  }

  /** The surplus exists exactly when the stock cells in range convert, and otherwise names the first that does not. */
  lemma SurplusOfConverts(stock: seq<seq<string>>, salesRow: seq<int>)
    requires stock != []
    ensures
      var r := SurplusOf(stock, salesRow);
      var n := Min(|Last(stock)|, |salesRow|);
      && (r.Success? <==> forall i | 0 <= i < n :: IsIntToken(Last(stock)[i]))
      && (r.Failure? ==>
            exists i | 0 <= i < n ::
              && !IsIntToken(Last(stock)[i])
              && r.error == InvalidLiteral(Last(stock)[i])
              && forall j | 0 <= j < i :: IsIntToken(Last(stock)[j]))
  {
    var stockRow := Last(stock);
    var cells := stockRow[..Min(|stockRow|, |salesRow|)];
    assert forall i | 0 <= i < |cells| :: cells[i] == stockRow[i];
  }

  /** An existing surplus holds, at each position in range, the converted stock cell minus the sales figure. */
  lemma SurplusOfValues(stock: seq<seq<string>>, salesRow: seq<int>)
    requires stock != [] && SurplusOf(stock, salesRow).Success?
    ensures
      var r := SurplusOf(stock, salesRow);
      var n := Min(|Last(stock)|, |salesRow|);
      forall i | 0 <= i < n :: Some(r.value[i] + salesRow[i]) == ParseInt(Last(stock)[i])
  {
    var stockRow := Last(stock);
    var n := Min(|stockRow|, |salesRow|);
    var cells := stockRow[..n];
    var converted := ParseAll(cells);
    var r := SurplusOf(stock, salesRow);
    assert r == Success(seq(n, i requires 0 <= i < n => converted.value[i] - salesRow[i]));
    forall i | 0 <= i < n ensures Some(r.value[i] + salesRow[i]) == ParseInt(stockRow[i]) {
      assert cells[i] == stockRow[i];
      assert r.value[i] + salesRow[i] == converted.value[i];
    }
  }

  /** The surplus fails on the first stock cell in range that is not an integer literal. */
  lemma SurplusFailsAt(stock: seq<seq<string>>, salesRow: seq<int>, i: nat)
    requires stock != []
    requires i < Min(|Last(stock)|, |salesRow|)
    requires !IsIntToken(Last(stock)[i])
    requires forall j | 0 <= j < i :: IsIntToken(Last(stock)[j])
    ensures SurplusOf(stock, salesRow) == Failure(InvalidLiteral(Last(stock)[i]))
  {
    var stockRow := Last(stock);
    var cells := stockRow[..Min(|stockRow|, |salesRow|)];
    assert forall j | 0 <= j <= i :: cells[j] == stockRow[j];
    ParseAllFirstFailure(cells, i);
  }

  /**
    When the stock cells in range convert to `stockValues`, the surplus is the
    row holding each of those values minus the matching sales figure.
   */
  lemma SurplusIs(stock: seq<seq<string>>, salesRow: seq<int>, stockValues: seq<int>, surplusData: seq<int>)
    requires stock != []
    requires |stockValues| == |surplusData| == Min(|Last(stock)|, |salesRow|)
    requires forall j | 0 <= j < |stockValues| :: ParseInt(Last(stock)[j]) == Some(stockValues[j])
    requires forall j | 0 <= j < |surplusData| :: surplusData[j] == stockValues[j] - salesRow[j]
    ensures SurplusOf(stock, salesRow) == Success(surplusData)
  {
    ParseAllPrefix(Last(stock), stockValues);
    var n := |stockValues|;
    var expected := seq(n, j requires 0 <= j < n => stockValues[j] - salesRow[j]);
    assert expected == surplusData by {
      assert forall j | 0 <= j < n :: expected[j] == surplusData[j];
    }
    assert SurplusOf(stock, salesRow) == Success(expected);
  }

  /** calculate_surplus_data(sales_row), with the stock worksheet's rows passed in. */
  method CalculateSurplus(stock: seq<seq<string>>, salesRow: seq<int>) returns (r: Result<seq<int>, Error>)
    ensures r == SurplusOf(stock, salesRow)
  {
    if stock == [] {
      return Failure(IndexOutOfRange);
    }
    var stockRow := Last(stock);
    var n := Min(|stockRow|, |salesRow|);
    var surplusData: seq<int> := [];
    ghost var stockValues: seq<int> := [];
    for i := 0 to n
      invariant |surplusData| == i && |stockValues| == i
      invariant forall j | 0 <= j < i :: ParseInt(stockRow[j]) == Some(stockValues[j])
      invariant forall j | 0 <= j < i :: surplusData[j] == stockValues[j] - salesRow[j]
    {
      match ParseInt(stockRow[i]) {
        case None =>
          SurplusFailsAt(stock, salesRow, i);
          return Failure(InvalidLiteral(stockRow[i]));
        case Some(v) =>
          surplusData := surplusData + [v - salesRow[i]];
          stockValues := stockValues + [v];
      }
    }
    SurplusIs(stock, salesRow, stockValues, surplusData);
    return Success(surplusData);
  }

  /**
    When the last stock row is one the program appended (integers shown in
    decimal), the surplus always succeeds and is stock minus sales.
   */
  lemma SurplusOfRenderedStock(stock: seq<seq<string>>, last: seq<int>, salesRow: seq<int>)
    requires stock != []
    requires |Last(stock)| == |last|
    requires forall i | 0 <= i < |last| :: Last(stock)[i] == Show(last[i])
    ensures SurplusOf(stock, salesRow).Success?
    ensures |SurplusOf(stock, salesRow).value| == Min(|last|, |salesRow|)
    ensures forall i | 0 <= i < Min(|last|, |salesRow|) ::
      SurplusOf(stock, salesRow).value[i] == last[i] - salesRow[i]
  {
    var stockRow := Last(stock);
    forall i | 0 <= i < |last| ensures ParseInt(stockRow[i]) == Some(last[i]) {
      ShowParses(last[i]);
    }
    assert forall i | 0 <= i < Min(|stockRow|, |salesRow|) :: IsIntToken(stockRow[i]);
    SurplusOfMeaning(stock, salesRow);
  }
}
