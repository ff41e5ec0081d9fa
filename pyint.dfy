/**
  Python's int() applied to a string (base 10), and the decimal rendering of an
  integer that the spreadsheet shows when a number is appended to a worksheet.
 */
module PyInt {
  import opened Wrappers

  /**
    The characters int() skips at both ends of a literal: the ASCII whitespace
    tab, line feed, vertical tab, form feed, carriage return and space, and the
    non-ASCII characters str.isspace() accepts (int() turns those into spaces
    first). The ASCII separators U+001C to U+001F are not skipped.
   */
  predicate IsSpace(c: char)
  {
    || ('\t' <= c <= '\r')
    || c == ' '
    || c == '\U{85}' || c == '\U{A0}' || c == '\U{1680}'
    || ('\U{2000}' <= c <= '\U{200A}')
    || c == '\U{2028}' || c == '\U{2029}' || c == '\U{202F}' || c == '\U{205F}' || c == '\U{3000}'
  }

  predicate IsDigit(c: char)
  {
    '0' <= c <= '9'
  }

  /**
    A decimal literal as int() accepts it: digits, with single underscores
    between digits (read from the right: a digit, preceded by nothing, by a
    literal, or by an underscore that follows a literal).
   */
  predicate IsDigitGroup(s: string)
  {
    && |s| > 0
    && IsDigit(s[|s| - 1])
    && var p := s[..|s| - 1];
       || p == []
       || IsDigitGroup(p)
       || (p[|p| - 1] == '_' && IsDigitGroup(p[..|p| - 1]))
  }

  /** The value of the digits of s read left to right; underscores are skipped. */
  function DigitsValue(s: string): nat
  {
    if s == [] then 0
    else
      var c := s[|s| - 1];
      if IsDigit(c) then 10 * DigitsValue(s[..|s| - 1]) + (c as int - '0' as int)
      else DigitsValue(s[..|s| - 1])
  }

  /** int(s): whitespace around the literal is skipped; None stands for the ValueError int() raises. */
  function ParseInt(s: string): (r: Option<int>)
    ensures r.Some? ==> |s| > 0
  {
    if s != [] && IsSpace(s[0]) then ParseInt(s[1..])
    else if s != [] && IsSpace(s[|s| - 1]) then ParseInt(s[..|s| - 1])
    else ParseLiteral(s)
  }

  /** A literal without surrounding whitespace: an optional sign, then decimal digits. */
  function ParseLiteral(t: string): Option<int>
  {
    if |t| > 0 && (t[0] == '-' || t[0] == '+') then
      if IsDigitGroup(t[1..]) then
        Some(if t[0] == '-' then -(DigitsValue(t[1..]) as int) else DigitsValue(t[1..]))
      else None
    else if IsDigitGroup(t) then Some(DigitsValue(t))
    else None
  }

  /** A string int() accepts starts with whitespace, a sign or a digit, and ends with whitespace or a digit. */
  lemma {:induction false} ParseIntShape(s: string)
    requires ParseInt(s).Some?
    ensures IsSpace(s[0]) || IsDigit(s[0]) || s[0] == '-' || s[0] == '+'
    ensures IsSpace(s[|s| - 1]) || IsDigit(s[|s| - 1])
    decreases |s|
  {
    if IsSpace(s[0]) {
      ParseIntShape(s[1..]);
      assert s[1..][|s| - 2] == s[|s| - 1];
    } else if IsSpace(s[|s| - 1]) {
      ParseIntShape(s[..|s| - 1]);
    } else if s[0] == '-' || s[0] == '+' {
    } else {
      DigitGroupStartsWithDigit(s);
    }
  }

  lemma {:induction false} DigitGroupStartsWithDigit(s: string)
    requires IsDigitGroup(s)
    ensures IsDigit(s[0])
    decreases |s|
  {
    var p := s[..|s| - 1];
    if p != [] {
      if IsDigitGroup(p) {
        DigitGroupStartsWithDigit(p);
        assert s[0] == p[0];
      } else {
        DigitGroupStartsWithDigit(p[..|p| - 1]);
        assert s[0] == p[..|p| - 1][0];
      }
    }
  }

  predicate IsIntToken(s: string)
  {
    ParseInt(s).Some?
  }

  /**
    [int(t) for t in tokens]: every token converted in order; the first token
    that is not an integer literal raises, and the later ones are not looked at.
   */
  function ParseAll(tokens: seq<string>): (r: Result<seq<int>, Error>)
    ensures r.Success? <==> forall i | 0 <= i < |tokens| :: IsIntToken(tokens[i])
    ensures r.Success? ==>
      && |r.value| == |tokens|
      && forall i | 0 <= i < |tokens| :: ParseInt(tokens[i]) == Some(r.value[i])
    ensures r.Failure? ==>
      exists i | 0 <= i < |tokens| ::
        && !IsIntToken(tokens[i])
        && r.error == InvalidLiteral(tokens[i])
        && forall j | 0 <= j < i :: IsIntToken(tokens[j])
  {
    if tokens == [] then Success([])
    else
      var head := ParseInt(tokens[0]);
      if head.None? then Failure(InvalidLiteral(tokens[0]))
      else
        var rest := tokens[1..];
        assert forall i | 1 <= i < |tokens| :: tokens[i] == rest[i - 1];
        var r := ParseAll(rest);
        if r.Failure? then Failure(r.error)
        else Success([head.value] + r.value)
  }

  /** The error of the conversion names the first token that is not an integer literal. */
  lemma {:induction false} ParseAllFirstFailure(tokens: seq<string>, i: nat)
    requires i < |tokens| && !IsIntToken(tokens[i])
    requires forall j | 0 <= j < i :: IsIntToken(tokens[j])
    ensures ParseAll(tokens) == Failure(InvalidLiteral(tokens[i]))
  {
    if i > 0 {
      assert tokens[1..][i - 1] == tokens[i];
      assert forall j | 0 <= j < i - 1 :: tokens[1..][j] == tokens[j + 1];
      ParseAllFirstFailure(tokens[1..], i - 1);
      assert IsIntToken(tokens[0]);
    }
  }

  /** Tokens that all convert, each to its value, convert to the sequence of those values. */
  lemma ParseAllIs(tokens: seq<string>, values: seq<int>)
    requires |values| == |tokens|
    requires forall i | 0 <= i < |tokens| :: ParseInt(tokens[i]) == Some(values[i])
    ensures ParseAll(tokens) == Success(values)
  {
    assert forall i | 0 <= i < |tokens| :: IsIntToken(tokens[i]);
    assert ParseAll(tokens).value == values;
  }

  /** The first |values| tokens of a row, each converting to its value, convert to exactly those values. */
  lemma ParseAllPrefix(row: seq<string>, values: seq<int>)
    requires |values| <= |row|
    requires forall j | 0 <= j < |values| :: ParseInt(row[j]) == Some(values[j])
    ensures ParseAll(row[..|values|]) == Success(values)
  {
    var cells := row[..|values|];
    forall j | 0 <= j < |values| ensures ParseInt(cells[j]) == Some(values[j]) {
      assert cells[j] == row[j];
    }
    ParseAllIs(cells, values);
  }

  function DigitChar(d: nat): char
    requires d < 10
  {
    ('0' as int + d) as char
  }

  function DecimalDigits(n: nat): string
  {
    if n < 10 then [DigitChar(n)] else DecimalDigits(n / 10) + [DigitChar(n % 10)]
  }

  /** How an integer reads back from a worksheet cell: its decimal form, with '-' when negative. */
  function Show(n: int): string
  {
    if n < 0 then "-" + DecimalDigits(-n) else DecimalDigits(n)
  }

  lemma {:induction false} DecimalDigitsValue(n: nat)
    ensures IsDigitGroup(DecimalDigits(n))
    ensures IsDigit(DecimalDigits(n)[0])
    ensures DigitsValue(DecimalDigits(n)) == n
  {
    var s := DecimalDigits(n);
    if n >= 10 {
      DecimalDigitsValue(n / 10);
      var p := DecimalDigits(n / 10);
      assert s == p + [DigitChar(n % 10)];
      assert s[..|s| - 1] == p;
      assert s[0] == p[0];
    }
  }

  /** Without whitespace at either end, int() reads the whole string as the literal. */
  lemma Unpadded(s: string)
    requires s != [] ==> !IsSpace(s[0]) && !IsSpace(s[|s| - 1])
    ensures ParseInt(s) == ParseLiteral(s)
  {
  }

  /** A number appended to a worksheet parses back to itself. */
  lemma ShowParses(n: int)
    ensures ParseInt(Show(n)) == Some(n)
  {
    var d := DecimalDigits(if n < 0 then -n else n);
    DecimalDigitsValue(if n < 0 then -n else n);
    var s := Show(n);
    assert IsDigit(d[0]) && IsDigit(d[|d| - 1]);
    if n < 0 {
      assert s == "-" + d;
      assert s[1..] == d;
      Unpadded(s);
    } else {
      assert s == d;
      Unpadded(s);
    }
  }

  /** int() ignores whitespace around the literal. */
  lemma {:induction false} ParseIntIgnoresPadding(s: string, pre: string, post: string)
    requires forall i | 0 <= i < |pre| :: IsSpace(pre[i])
    requires forall i | 0 <= i < |post| :: IsSpace(post[i])
    ensures ParseInt(pre + s + post) == ParseInt(s)
  {
    if pre != [] {
      assert (pre + s + post)[0] == pre[0];
      assert (pre + s + post)[1..] == pre[1..] + s + post;
      ParseIntIgnoresPadding(s, pre[1..], post);
    } else {
      assert pre + s + post == s + post;
      ParseIntIgnoresTrailing(s, post);
    }
  }

  lemma {:induction false} ParseIntIgnoresTrailing(s: string, post: string)
    requires forall i | 0 <= i < |post| :: IsSpace(post[i])
    ensures ParseInt(s + post) == ParseInt(s)
    decreases |s| + |post|
  {
    var x := s + post;
    if s != [] && IsSpace(s[0]) {
      assert x[0] == s[0] && x[1..] == s[1..] + post;
      ParseIntIgnoresTrailing(s[1..], post);
    } else if s == [] && post != [] {
      assert x == post && x[1..] == s + post[1..];
      ParseIntIgnoresTrailing(s, post[1..]);
    } else if post != [] {
      assert x[|x| - 1] == post[|post| - 1];
      assert x[..|x| - 1] == s + post[..|post| - 1];
      assert x[0] == s[0];
      ParseIntIgnoresTrailing(s, post[..|post| - 1]);
    } else {
      assert x == s;
    }
  }

  /** Literals int() accepts and rejects: a sign and single underscores are allowed, a space after the sign, a doubled underscore, a point and the empty string are not. */
  lemma ParseIntExamples()
    ensures ParseInt("+20") == Some(20)
    ensures ParseInt("3_0") == Some(30)
    ensures ParseInt("- 1") == None
    ensures ParseInt("1__0") == None
    ensures ParseInt("1.5") == None
    ensures ParseInt("") == None
    ensures ParseInt("\U{1C}10") == None
    ensures ParseInt("\U{A0}10 ") == Some(10)
  {
    Unpadded("+20");
    assert "+20"[1..] == "20" && "20"[..1] == "2";
    assert IsDigitGroup("20");
    assert DigitsValue("2") == 2;
    assert DigitsValue("20") == 20;
    Unpadded("3_0");
    assert "3_0"[..2] == "3_" && "3_"[..1] == "3";
    assert DigitsValue("3") == 3;
    assert DigitsValue("3_") == 3;
    assert IsDigitGroup("3_0");
    Unpadded("- 1");
    assert "- 1"[1..][0] == ' ';
    Unpadded("1__0");
    assert "1__0"[1] == '_' && "1__0"[2] == '_';
    Unpadded("1.5");
    assert "1.5"[1] == '.';
    Unpadded("\U{1C}10");
    assert "\U{1C}10"[..2] == "\U{1C}1" && "\U{1C}1"[..1] == "\U{1C}";
    assert !IsDigitGroup("\U{1C}") && !IsDigitGroup("\U{1C}1");
    assert !IsDigitGroup("\U{1C}10");
    assert Show(10) == "10";
    ShowParses(10);
    ParseIntIgnoresPadding("10", "\U{A0}", " ");
    assert "\U{A0}" + "10" + " " == "\U{A0}10 ";
  }
}
