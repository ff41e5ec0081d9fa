/** str.split(",") and its inverse, ",".join(...). */
module Tokens {

  /** s.split(","): the pieces between commas, in order; empty pieces are kept. */
  function Split(s: string): (r: seq<string>)
    ensures |r| >= 1
  {
    if s == [] then [""]
    else
      var rest := Split(s[1..]);
      if s[0] == ',' then [""] + rest else [[s[0]] + rest[0]] + rest[1..]
  }

  /** ",".join(tokens) */
  function Join(tokens: seq<string>): string
    requires |tokens| >= 1
  {
    if |tokens| == 1 then tokens[0] else tokens[0] + "," + Join(tokens[1..])
  }

  predicate NoComma(t: string)
  {
    forall i | 0 <= i < |t| :: t[i] != ','
  }

  /** No piece holds a comma, and joining the pieces with commas gives back the line. */
  lemma {:induction false} JoinSplit(s: string)
    ensures forall k | 0 <= k < |Split(s)| :: NoComma(Split(s)[k])
    ensures Join(Split(s)) == s
  {
    if s != [] {
      var rest := Split(s[1..]);
      JoinSplit(s[1..]);
      if s[0] == ',' {
        assert Split(s) == [""] + rest;
        assert ([""] + rest)[1..] == rest;
        assert s == "," + s[1..];
      } else {
        var head := [s[0]] + rest[0];
        assert Split(s) == [head] + rest[1..];
        assert NoComma(head) by {
          forall i | 0 <= i < |head| ensures head[i] != ',' {
            if i > 0 { assert head[i] == rest[0][i - 1]; }
          }
        }
        if |rest| == 1 {
          assert Join(Split(s)) == head;
        } else {
          assert ([head] + rest[1..])[1..] == rest[1..];
          assert Join(rest) == rest[0] + "," + Join(rest[1..]);
          assert Join(Split(s)) == head + "," + Join(rest[1..]);
        }
        assert s == [s[0]] + s[1..];
      }
    }
  }

  lemma {:induction false} SplitPrefix(t: string, x: string)
    requires NoComma(t)
    ensures Split(t + x) == [t + Split(x)[0]] + Split(x)[1..]
  {
    if t == [] {
      assert t + x == x;
      assert t + Split(x)[0] == Split(x)[0];
      assert Split(x) == [Split(x)[0]] + Split(x)[1..];
    } else {
      assert (t + x)[0] == t[0] && (t + x)[1..] == t[1..] + x;
      assert NoComma(t[1..]) by {
        forall i | 0 <= i < |t[1..]| ensures t[1..][i] != ',' { assert t[1..][i] == t[i + 1]; }
      }
      SplitPrefix(t[1..], x);
      assert [t[0]] + (t[1..] + Split(x)[0]) == t + Split(x)[0];
    }
  }

  /** Splitting comma-free pieces joined by commas gives back the pieces. */
  lemma {:induction false} SplitJoin(tokens: seq<string>)
    requires |tokens| >= 1
    requires forall k | 0 <= k < |tokens| :: NoComma(tokens[k])
    ensures Split(Join(tokens)) == tokens
  {
    if |tokens| == 1 {
      SplitPrefix(tokens[0], "");
      assert tokens[0] + "" == tokens[0];
    } else {
      var j := Join(tokens[1..]);
      SplitJoin(tokens[1..]);
      assert tokens[0] + "," + j == tokens[0] + ("," + j);
      SplitPrefix(tokens[0], "," + j);
      assert ("," + j)[1..] == j;
      assert Split("," + j) == [""] + tokens[1..];
      assert tokens[0] + "" == tokens[0];
      assert tokens == [tokens[0]] + tokens[1..];
    }
  }
}
