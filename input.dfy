/** The input collector: validate_data and the retry loop of get_sales_data. */
module Input {
  import opened Wrappers
  import opened PyInt
  import opened Tokens

  /**
    Why validate_data rejects values, or None when it accepts them. Every value
    is converted first, so an unparsable value is reported even when the count
    is also wrong; only then is the count compared with six.
   */
  function ValidationError(values: seq<string>): (e: Option<Error>)
    ensures e.None? <==> |values| == 6 && forall i | 0 <= i < |values| :: IsIntToken(values[i])
    ensures (exists i | 0 <= i < |values| :: !IsIntToken(values[i])) ==> e.Some? && e.value.InvalidLiteral?
    ensures e.Some? && e.value.InvalidLiteral? ==>
      exists i | 0 <= i < |values| ::
        && !IsIntToken(values[i])
        && e.value.token == values[i]
        && forall j | 0 <= j < i :: IsIntToken(values[j])
    ensures (forall i | 0 <= i < |values| :: IsIntToken(values[i])) && |values| != 6 ==>
      e == Some(WrongCount(|values|))
  {
    match ParseAll(values)
    case Failure(err) => Some(err)
    case Success(_) => if |values| != 6 then Some(WrongCount(|values|)) else None
  }

  /** validate_data(values) */
  predicate ValidateData(values: seq<string>)
    ensures ValidateData(values) <==> |values| == 6 && forall i | 0 <= i < |values| :: IsIntToken(values[i])
  {
    ValidationError(values).None?
  }

  /** The index of the first console line whose comma-split pieces pass validate_data (|lines| if none). */
  function FirstValid(lines: seq<string>): (k: nat)
    ensures k <= |lines|
    ensures k < |lines| ==> ValidateData(Split(lines[k]))
  {
    if lines == [] then 0
    else if ValidateData(Split(lines[0])) then 0
    else 1 + FirstValid(lines[1..])
  }

  /** Every line before FirstValid is rejected. */
  lemma {:induction false} FirstValidMeaning(lines: seq<string>)
    ensures forall j | 0 <= j < FirstValid(lines) :: !ValidateData(Split(lines[j]))
  {
    if lines != [] && !ValidateData(Split(lines[0])) {
      var rest := lines[1..];
      FirstValidMeaning(rest);
      var k := FirstValid(rest);
      assert FirstValid(lines) == 1 + k;
      assert forall j | 1 <= j < 1 + k :: lines[j] == rest[j - 1];
    }
  }

  /**
    get_sales_data: read lines until one splits into six integer pieces.
    `lines` stands for what the console delivers, in order; running out of
    lines is the EOFError input() raises. `used` is the index of the accepted
    line, so all lines before it were rejected.
   */
  method GetSalesData(lines: seq<string>) returns (r: Result<seq<string>, Error>, used: nat)
    ensures used == FirstValid(lines)
    ensures forall j | 0 <= j < used :: !ValidateData(Split(lines[j]))
    ensures r.Success? <==> used < |lines|
    ensures r.Success? ==> r.value == Split(lines[used]) && ValidateData(r.value)
    ensures r.Failure? ==> r.error == EndOfInput
  {
    used := 0;
    while used < |lines|
      invariant used <= |lines|
      invariant used + FirstValid(lines[used..]) == FirstValid(lines)
    {
      var salesData := Split(lines[used]);
      if ValidateData(salesData) {
        FirstValidMeaning(lines);
        return Success(salesData), used;
      }
      assert lines[used..][1..] == lines[used + 1..];
      used := used + 1;
    }
    FirstValidMeaning(lines);
    return Failure(EndOfInput), used;
  }

  /** Three integer pieces are rejected for their count. */
  lemma WrongCountExample()
    ensures ValidationError(["10", "20", "30"]) == Some(WrongCount(3))
  {
    assert Show(10) == "10" && Show(20) == "20" && Show(30) == "30";
    ShowParses(10);
    ShowParses(20);
    ShowParses(30);
  }

  /** An unparsable first piece is reported even though the count is also wrong. */
  lemma ParseBeforeCountExample()
    ensures ValidationError(["x", "20", "30", "40", "50", "60", "70"]) == Some(InvalidLiteral("x"))
  {
    Unpadded("x");
    assert ParseInt("x") == None;
  }
}
