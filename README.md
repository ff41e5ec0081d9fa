# Love Sandwiches data automation, modelled in Dafny

`run.py` is a console program for a sandwich stall. It does these steps once per market day:

1. It reads the day's sales of six sandwich types from the operator as one comma-separated line. It asks again until the line passes validation.
2. It appends the sales to the "sales" worksheet of a spreadsheet.
3. It computes the surplus: the last "stock" row minus the sales. It appends the surplus to "surplus".
4. It forecasts the next stock. For each sandwich it takes the average of the last five sales entries plus 10%. It appends the forecast to "stock".

The model covers:

- **Conversion and splitting.**
  - `PyInt`: Python's `int()` on a string, in the form CPython gives it. It skips ASCII whitespace (`\t` to `\r` and space) and non-ASCII whitespace at both ends, and accepts an optional sign and digits with single underscores.
  - `PyInt`: the decimal form in which an appended number reads back from a cell.
  - `Tokens`: `str.split(",")` and `",".join`.
- **Input.** `validate_data`, and the retry loop of `get_sales_data`.
  - The console is a finite sequence of lines.
  - Running out of lines is the `EOFError` that `input()` raises.
- **Surplus.** `calculate_surplus_data` as a loop method (`Surplus`).
  - It is proved equal to a specification function `SurplusOf`.
  - Lemmas state that function's meaning cell by cell.
- **Forecast.** `get_last_five_entries_sales` and `calculate_stock_data` as loop methods (`Stock`).
  - They are proved equal to `LastFive` and `ForecastAll`.
  - Lemmas give the window shape, and the conditions under which the forecast succeeds, overflows or fails.
- **Pipeline.** The spreadsheet is a class holding the three worksheets' rows, and `update_worksheet` updates one of them in place.
  - `main()` is `Spreadsheet.Run`. Its contract gives the whole new state on every path: success, end of input, and an exception in any stage.

Python exceptions are values of `Wrappers.Error`:

| `Error` value | Python exception |
|---|---|
| `InvalidLiteral(token)` | the `ValueError` raised by `int()` |
| `WrongCount(n)` | the `ValueError` raised for a wrong count |
| `IndexOutOfRange` | `stock[-1]` on an empty worksheet |
| `ZeroDivision` | `len(int_column) == 0` |
| `Overflow` | the `OverflowError` raised when an average or `round()` of it does not fit a float |
| `EndOfInput` | the `EOFError` raised by `input()` |

Consequences of the code that the model keeps:

- **Negative sales are accepted.** `validate_data` checks only that each value converts with `int()` and that there are six of them, so `"-3"` is accepted as a sales figure.
- **The header row is in the window.** `get_all_values()` and `col_values()` return the header row too, and the model keeps it as an ordinary row. While the sales worksheet has fewer than five data rows, the header cell is inside the five-entry window. `int()` then raises, so the forecast fails instead of averaging the rows there are. `Stock.ForecastOfSales` states when the forecast succeeds.
- **Zip truncation.** The surplus is computed with `zip`, so its length is the shorter of the two rows. It is not always six values.
- **No division by zero in practice.** `calculate_stock_data` can raise a division by zero only on an empty column. `main()` appends the sales row first, so within `Run` that never happens (`Run` ensures `r != Failure(ZeroDivision)`).

## Model

| member | source | states |
|---|---|---|
| `PyInt.ParseInt` | run.py:42 | `int()` of a string. Its contract says that a string it accepts is not empty. `ParseIntShape`, `ParseIntIgnoresPadding`, `ShowParses` and `ParseIntExamples` give the rest. |
| `PyInt.ParseIntShape` | run.py:42 | A string `int()` accepts starts with whitespace, a sign or a digit, and ends with whitespace or a digit. |
| `PyInt.ParseAll` | run.py:42 | The list comprehension `[int(v) for v in values]` succeeds iff every token is an integer literal. On success it has one value per token, in order, and each value is `int()` of its token. On failure the error names the first token that does not convert, and every earlier token converts. |
| `PyInt.ParseAllFirstFailure` | run.py:42 | If token `i` is the first one that does not convert, the comprehension raises on exactly that token. |
| `PyInt.ParseAllIs` | run.py:121 | Tokens that each convert to the matching value convert to exactly that sequence of values. |
| `PyInt.ParseAllPrefix` | run.py:77-78 | If the first `n` cells of a row convert to given values, converting that prefix gives exactly those values. |
| `PyInt.Unpadded` | run.py:42 | A string with no whitespace at either end is read by `int()` as a literal as a whole. |
| `PyInt.ShowParses` | run.py:61 | A number appended to a worksheet reads back through `int()` as the same number. This includes negative numbers. |
| `PyInt.ParseIntIgnoresPadding` | run.py:42 | `int()` gives the same result when whitespace it skips is added before and after the token (e.g. `"10, 20"`). |
| `PyInt.ParseIntIgnoresTrailing` | run.py:42 | `int()` gives the same result when whitespace it skips is added after the token. |
| `PyInt.ParseIntExamples` | run.py:42 | `"+20"` converts to 20, `"3_0"` to 30, and `"\xa010 "` (a no-break space before, a space after) to 10. `"- 1"`, `"1__0"`, `"1.5"`, `""` and `"\x1c10"` are rejected. |
| `Tokens.Split` | run.py:27 | `split(",")` always yields at least one piece. |
| `Tokens.JoinSplit` | run.py:27 | No piece of `split(",")` holds a comma, and joining the pieces with commas gives back the line. |
| `Tokens.SplitJoin` | run.py:27 | Splitting comma-free pieces joined with commas gives back exactly those pieces. |
| `Input.ValidationError` | run.py:35-51 | Validation passes iff there are exactly six values and all of them convert. An unconvertible value is reported before the count, even when the count is also wrong, and the report names the first such value. If all values convert but there are not six, the count is reported. |
| `Input.ValidateData` | run.py:35-51 | `validate_data` returns True iff there are exactly six values and every one converts with `int()`. |
| `Input.FirstValid` | run.py:21-31 | The retry loop stops at the first line whose pieces pass validation. That index is at most the number of lines, and the line there passes. |
| `Input.FirstValidMeaning` | run.py:21-31 | Every line before the one the loop stops at fails validation. |
| `Input.GetSalesData` | run.py:17-32 | The loop returns the comma-split pieces of the first line that passes validation, and every earlier line was rejected. With no such line, it ends with the end-of-input error. |
| `Input.WrongCountExample` | run.py:43-46 | `["10","20","30"]` is rejected for its count of 3. |
| `Input.ParseBeforeCountExample` | run.py:42-49 | Seven values starting with `"x"` are rejected for `"x"`, not for their count. |
| `Surplus.SurplusOf` | run.py:73-81 | The surplus of an empty stock worksheet is the `IndexError` of `stock[-1]`. An existing surplus has the length of the shorter of the last stock row and the sales row. |
| `Surplus.SurplusOfMeaning` | run.py:73-81 | An empty stock worksheet has no last row, so the surplus fails. Otherwise the surplus succeeds iff every cell of the last stock row within the zipped range converts. It then has the shorter row's length, and `surplus[i] + sales[i] == int(stock[i])` at every position. Else the error names the first bad cell. |
| `Surplus.SurplusOfConverts` | run.py:77-78 | The surplus exists iff the stock cells in the zipped range convert. Otherwise it fails on the first cell that does not. |
| `Surplus.SurplusOfValues` | run.py:77-79 | An existing surplus holds, at each position, the converted stock cell minus the sales figure. |
| `Surplus.SurplusFailsAt` | run.py:77-78 | The surplus fails on the first stock cell in range that does not convert. |
| `Surplus.SurplusIs` | run.py:76-79 | If the stock cells in range convert to given values, the surplus is the row of those values minus the sales. |
| `Surplus.CalculateSurplus` | run.py:65-81 | The loop over `zip(stock_row, sales_row)` computes exactly `SurplusOf`, including its errors. |
| `Surplus.SurplusOfRenderedStock` | run.py:74-78 | When the last stock row is one the program appended, the surplus always succeeds and equals stock minus sales over the zipped range. |
| `Stock.ColValues` | run.py:93 | `col_values(ind)` holds one cell per worksheet row, header included. |
| `Stock.LastFive` | run.py:91-96 | There are six windows, and each holds at most five entries. |
| `Stock.GetLastFiveEntriesSales` | run.py:84-96 | There are exactly six columns. Column `k` is the last `min(5, n)` entries of `col_values(k+1)`, i.e. a suffix of that column. |
| `Stock.LastFiveWindows` | run.py:92-94 | Each of the six windows has `min(5, rows)` entries. Entry `i` is column `k`'s cell of the matching recent row. |
| `Stock.ColumnForecastMeaning` | run.py:107-111 | One column either divides by zero, overflows, fails on a bad cell, or succeeds. <br>• It divides by zero iff the column is empty. <br>• It succeeds or overflows iff the column is non-empty and every cell converts. It then succeeds exactly when `estimate` of the converted cells has a value, and the result is that value. <br>• Otherwise it fails on the first cell that does not convert. |
| `Stock.ForecastAll` | run.py:105-113 | The forecast succeeds iff every column's forecast succeeds. It then holds one value per column, in column order. Otherwise it fails with the error of the first failing column. |
| `Stock.ForecastFailsAt` | run.py:107-109 | The forecast fails with the error of the first column that fails. |
| `Stock.CalculateStockData` | run.py:99-113 | The loop over the columns computes exactly `ForecastAll`, including its errors. |
| `Stock.EmptyColumnFails` | run.py:109 | An empty column makes the forecast fail. If every earlier column succeeded, the failure is a division by zero. |
| `Stock.WindowForecast` | run.py:92-111 | One window's forecast succeeds or overflows iff the worksheet has a row and column `k` of each of its last `min(5, rows)` rows converts. |
| `Stock.ForecastOfSales` | run.py:125-126 | If the forecast over the sales worksheet succeeds, the worksheet has a row and the first six cells of each recent row convert. Given those cells, the forecast either succeeds or overflows. It can divide by zero only when the worksheet is empty. |
| `Pipeline.RenderRowParses` | run.py:61 | A row of integers appended to a worksheet converts back to the same integers. |
| `Pipeline.AcceptedSales` | run.py:120-121 | The accepted line converts to six integers, each being `int()` of the matching piece. |
| `Pipeline.Spreadsheet.UpdateWorksheet` | run.py:54-62 | The named worksheet gains the row as its last row, and the other two worksheets are unchanged. |
| `Pipeline.Spreadsheet.Run` | run.py:116-128 | On end of input nothing changes. Otherwise these hold: <br>• The sales row is appended. <br>• If the surplus fails, its error ends the run and the surplus and stock worksheets are unchanged. <br>• Otherwise the surplus row is appended, and the result is the forecast over the updated sales worksheet. <br>• A successful forecast is appended to stock, and a failed one leaves stock unchanged. <br>• The run never ends in a division by zero. <br>• A successful run yields six values. |

## Left out

- The Google Sheets client, credentials and `SHEET` lookup (`run.py:1-14`, `SHEET.worksheet(name)`): the three worksheets are fields of `Spreadsheet`. A missing worksheet, network errors and quota errors are not modelled.
- Console I/O: `input()` is replaced by a given sequence of lines. The `print` calls give diagnostics only and are left out, and so is the final `print(stock_data)`.
- Worksheet cells: how appended numbers are stored is modelled only by their decimal reading (`Show`). Formulas, locale formatting and the trimming of blank trailing cells by the sheet service are not modelled. A row shorter than a requested column reads as an empty cell there.
- `int()`: Unicode decimal digits other than ASCII `0-9`, and the 4300-digit limit for string conversion, are not modelled.
- `PyInt.ParseInt`: its contract states only that an accepted string is not empty. Its meaning is its definition and the lemmas on its rows, because a stronger postcondition on the function itself makes every proof that mentions `int()` much slower.
- `Stock.ColumnForecastMeaning`: the value `round(sum(xs) / len(xs) * 1.1)` is the parameter `estimate`, because floating-point division, multiplication and round-half-to-even are not modelled. For the same reason, where the float range is exceeded and the `OverflowError` is raised is also part of `estimate` (`None`). The contract says which integers are passed to `estimate` and how its answer maps onto success or `Overflow`.
- `Stock.ForecastAll`: the forecast values are stated only through `estimate`, for the same reason.
- `Stock.CalculateStockData`: its values are stated only through `estimate`, for the same reason.
- `Stock.WindowForecast`: whether an overflow happens is decided by `estimate`, for the same reason.
- `Stock.ForecastOfSales`: the same holds here.
- `Pipeline.Spreadsheet.Run`: the forecast values, and whether the forecast overflows, are stated only through `estimate`, for the same reason.
