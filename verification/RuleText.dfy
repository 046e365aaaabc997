/** Trimming, splitting at a top-level operator, and stripping brackets: the text handling of rule expressions. */
module RuleText {
  // White space.

  predicate IsSpace(c: char) {
    || '\t' <= c <= '\r'
    || (0x1c as char) <= c <= ' '
    || c in {'\U{85}', '\U{a0}', '\U{1680}', '\U{2028}', '\U{2029}', '\U{202f}', '\U{205f}', '\U{3000}'}
    || '\U{2000}' <= c <= '\U{200a}'
  }

  predicate AllSpace(s: string) {
    forall c | c in s :: IsSpace(c)
  }

  function TrimLeft(s: string): (r: string)
    ensures |r| <= |s|
  {
    if s != "" && IsSpace(s[0]) then TrimLeft(s[1..]) else s
  }

  function TrimRight(s: string): (r: string)
    ensures |r| <= |s|
  {
    if s != "" && IsSpace(s[|s| - 1]) then TrimRight(s[..|s| - 1]) else s
  }

  function Trim(s: string): (r: string) {
    TrimRight(TrimLeft(s))
  }

  /** Nothing to trim. */
  predicate Tight(s: string) {
    s != "" && !IsSpace(s[0]) && !IsSpace(s[|s| - 1])
  }

  lemma {:induction false} TrimLeftPad(pad: string, s: string)
    requires AllSpace(pad)
    ensures TrimLeft(pad + s) == TrimLeft(s)
  {
    if pad == "" {
      assert pad + s == s;
    } else {
      assert (pad + s)[1..] == pad[1..] + s;
      TrimLeftPad(pad[1..], s);
    }
  }

  lemma {:induction false} TrimRightPad(s: string, pad: string)
    requires AllSpace(pad)
    ensures TrimRight(s + pad) == TrimRight(s)
    decreases |pad|
  {
    if pad == "" {
      assert s + pad == s;
    } else {
      var n := |pad| - 1;
      assert (s + pad)[..|s + pad| - 1] == s + pad[..n];
      assert pad[n] in pad;
      TrimRightPad(s, pad[..n]);
    }
  }

  lemma {:induction false} TrimLeftOfPadded(s: string, pad: string)
    requires AllSpace(pad)
    ensures TrimLeft(s + pad) == (if AllSpace(s) then "" else TrimLeft(s) + pad)
    ensures AllSpace(s) <==> TrimLeft(s) == ""
  {
    if s == "" {
      assert s + pad == pad + "";
      TrimLeftPad(pad, "");
    } else {
      assert (s + pad)[1..] == s[1..] + pad;
      TrimLeftOfPadded(s[1..], pad);
      assert s == [s[0]] + s[1..];
    }
  }

  /** White space around a text does not matter to trimming it. */
  lemma TrimPads(left: string, s: string, right: string)
    requires AllSpace(left) && AllSpace(right)
    ensures Trim(left + s + right) == Trim(s)
  {
    assert left + s + right == left + (s + right);
    TrimLeftPad(left, s + right);
    TrimLeftOfPadded(s, right);
    if AllSpace(s) {
      assert Trim(s) == "";
    } else {
      TrimRightPad(TrimLeft(s), right);
    }
  }

  lemma TrimTight(s: string)
    requires Tight(s)
    ensures Trim(s) == s
  {
  }

  lemma {:induction false} TrimLeftStarts(s: string)
    ensures TrimLeft(s) == "" || !IsSpace(TrimLeft(s)[0])
  {
    if s != "" && IsSpace(s[0]) {
      TrimLeftStarts(s[1..]);
    }
  }

  lemma {:induction false} TrimRightEnds(s: string)
    ensures TrimRight(s) <= s
    ensures TrimRight(s) == "" || !IsSpace(TrimRight(s)[|TrimRight(s)| - 1])
  {
    if s != "" && IsSpace(s[|s| - 1]) {
      TrimRightEnds(s[..|s| - 1]);
    }
  }

  lemma TrimIsTight(s: string)
    ensures Trim(s) == "" || Tight(Trim(s))
  {
    TrimLeftStarts(s);
    TrimRightEnds(TrimLeft(s));
  }

  // Splitting.

  function Deeper(c: char, depth: nat): nat {
    if c == '(' then depth + 1 else if c == ')' then (if depth == 0 then 0 else depth - 1) else depth
  }

  function DepthAfter(s: string, depth: nat): nat {
    if s == "" then depth else DepthAfter(s[1..], Deeper(s[0], depth))
  }

  predicate IsOperator(op: string) {
    op == "||" || op == "&&"
  }

  /** The operator stands at the front of the text, outside brackets. */
  predicate OperatorAt(s: string, op: string, depth: nat) {
    depth == 0 && s != "" && s[0] != '(' && s[0] != ')' && op <= s
  }

  /** A text put before the first of some pieces. */
  function Before(prefix: string, pieces: seq<string>): (r: seq<string>)
    requires pieces != []
  {
    [prefix + pieces[0]] + pieces[1..]
  }

  /** The pieces between the operators outside brackets, untrimmed. */
  function Pieces(s: string, op: string, depth: nat): (r: seq<string>)
    requires IsOperator(op)
    ensures r != []
    decreases |s|
  {
    if s == "" then [""]
    else if OperatorAt(s, op, depth) then [""] + Pieces(s[|op|..], op, 0)
    else Before([s[0]], Pieces(s[1..], op, Deeper(s[0], depth)))
  }

  function TrimAll(pieces: seq<string>): (r: seq<string>) {
    seq(|pieces|, k requires 0 <= k < |pieces| => Trim(pieces[k]))
  }

  function SplitTopLevel(s: string, op: string): (r: seq<string>)
    requires IsOperator(op)
  {
    TrimAll(Pieces(s, op, 0))
  }

  lemma BeforeBefore(a: string, b: string, pieces: seq<string>)
    requires pieces != []
    ensures Before(a, Before(b, pieces)) == Before(a + b, pieces)
  {
    assert a + (b + pieces[0]) == (a + b) + pieces[0];
  }

  /** What the loop has in hand: the part from `start` on, before the pieces still to come. */
  function InHand(s: string, op: string, start: nat, index: nat, depth: nat): seq<string>
    requires IsOperator(op) && start <= index <= |s|
  {
    Before(s[start..index], Pieces(s[index..], op, depth))
  }

  lemma InHandAtOperator(s: string, op: string, start: nat, index: nat)
    requires IsOperator(op) && start <= index < |s| && OperatorAt(s[index..], op, 0)
    ensures index + |op| <= |s|
    ensures InHand(s, op, start, index, 0) == [s[start..index]] + InHand(s, op, index + |op|, index + |op|, 0)
  {
    var next := index + |op|;
    assert s[index..][|op|..] == s[next..];
    assert s[next..next] == "";
    BeforeBefore("", "", Pieces(s[next..], op, 0));
    assert "" + Pieces(s[next..], op, 0)[0] == Pieces(s[next..], op, 0)[0];
    assert s[start..index] + "" == s[start..index];
  }

  lemma InHandAtOther(s: string, op: string, start: nat, index: nat, depth: nat)
    requires IsOperator(op) && start <= index < |s| && !OperatorAt(s[index..], op, depth)
    ensures InHand(s, op, start, index, depth) == InHand(s, op, start, index + 1, Deeper(s[index], depth))
  {
    assert s[index..][1..] == s[index + 1..];
    BeforeBefore(s[start..index], [s[index]], Pieces(s[index + 1..], op, Deeper(s[index], depth)));
    assert s[start..index] + [s[index]] == s[start..index + 1];
  }

  /** The parts that reading on from the index gives, when the part in hand begins at `start`. */
  function PartsFrom(s: string, op: string, start: nat, index: nat, depth: nat): seq<string>
    requires IsOperator(op) && start <= index <= |s|
    decreases |s| - index
  {
    if index == |s| then [Trim(s[start..])]
    else if OperatorAt(s[index..], op, depth) then
      [Trim(s[start..index])] + PartsFrom(s, op, index + |op|, index + |op|, 0)
    else PartsFrom(s, op, start, index + 1, Deeper(s[index], depth))
  }

  lemma {:induction false} PartsFromIs(s: string, op: string, start: nat, index: nat, depth: nat)
    requires IsOperator(op) && start <= index <= |s|
    ensures PartsFrom(s, op, start, index, depth) == TrimAll(InHand(s, op, start, index, depth))
    decreases |s| - index
  {
    if index == |s| {
      assert s[|s|..] == "" && s[start..|s|] == s[start..];
      assert s[start..] + "" == s[start..];
    } else if OperatorAt(s[index..], op, depth) {
      InHandAtOperator(s, op, start, index);
      PartsFromIs(s, op, index + |op|, index + |op|, 0);
    } else {
      InHandAtOther(s, op, start, index, depth);
      PartsFromIs(s, op, start, index + 1, Deeper(s[index], depth));
    }
  }

  lemma PartsFromStart(s: string, op: string)
    requires IsOperator(op)
    ensures PartsFrom(s, op, 0, 0, 0) == SplitTopLevel(s, op)
  {
    PartsFromIs(s, op, 0, 0, 0);
    assert s[0..] == s && s[0..0] == "";
    assert "" + Pieces(s, op, 0)[0] == Pieces(s, op, 0)[0];
  }

  /** The splitter as the loop over the characters with a start index. */
  method SplitTopLevelExpression(expression: string, op: string) returns (parts: seq<string>)
    requires IsOperator(op)
    ensures parts == SplitTopLevel(expression, op)
  {
    parts := [];
    var depth: nat, start: nat, index: nat := 0, 0, 0;
    while index < |expression|
      invariant start <= index <= |expression|
      invariant parts + PartsFrom(expression, op, start, index, depth) == PartsFrom(expression, op, 0, 0, 0)
    {
      var c := expression[index];
      if c == '(' {
        depth := depth + 1;
      } else if c == ')' {
        depth := if depth == 0 then 0 else depth - 1;
      } else if OperatorAt(expression[index..], op, depth) {
        parts := parts + [Trim(expression[start..index])];
        index := index + |op|;
        start := index;
        continue;
      }
      index := index + 1;
    }
    parts := parts + [Trim(expression[start..])];
    PartsFromStart(expression, op);
  }

  function Join(pieces: seq<string>, op: string): string
    requires pieces != []
  {
    if |pieces| == 1 then pieces[0] else pieces[0] + op + Join(pieces[1..], op)
  }

  lemma JoinBefore(prefix: string, pieces: seq<string>, op: string)
    requires pieces != []
    ensures Join(Before(prefix, pieces), op) == prefix + Join(pieces, op)
  {
    if |pieces| > 1 {
      assert Before(prefix, pieces)[1..] == pieces[1..];
      assert prefix + pieces[0] + op + Join(pieces[1..], op) == prefix + (pieces[0] + op + Join(pieces[1..], op));
    }
  }

  /** The pieces with the operator between them are the text. */
  lemma {:induction false} PiecesJoin(s: string, op: string, depth: nat)
    requires IsOperator(op)
    ensures Join(Pieces(s, op, depth), op) == s
    decreases |s|
  {
    if s == "" {
    } else if OperatorAt(s, op, depth) {
      PiecesJoin(s[|op|..], op, 0);
      assert s == op + s[|op|..];
      assert Pieces(s, op, depth)[1..] == Pieces(s[|op|..], op, 0);
    } else {
      PiecesJoin(s[1..], op, Deeper(s[0], depth));
      JoinBefore([s[0]], Pieces(s[1..], op, Deeper(s[0], depth)), op);
      assert s == [s[0]] + s[1..];
    }
  }

  /** No operator outside brackets, reading from a depth on. */
  predicate Free(s: string, op: string, depth: nat) {
    s == "" || (!OperatorAt(s, op, depth) && Free(s[1..], op, Deeper(s[0], depth)))
  }

  lemma {:induction false} FreePrefix(s: string, op: string, depth: nat, n: nat)
    requires Free(s, op, depth) && n <= |s|
    ensures Free(s[..n], op, depth)
  {
    if n > 0 {
      assert s[..n][1..] == s[1..][..n - 1];
      FreePrefix(s[1..], op, Deeper(s[0], depth), n - 1);
    }
  }

  lemma {:induction false} FreeTrimLeft(s: string, op: string)
    requires Free(s, op, 0)
    ensures Free(TrimLeft(s), op, 0)
  {
    if s != "" && IsSpace(s[0]) {
      FreeTrimLeft(s[1..], op);
    }
  }

  lemma {:induction false} PiecesStart(s: string, op: string, depth: nat)
    requires IsOperator(op)
    ensures Pieces(s, op, depth)[0] <= s
    decreases |s|
  {
    if s != "" && !OperatorAt(s, op, depth) {
      PiecesStart(s[1..], op, Deeper(s[0], depth));
    }
  }

  /** No piece holds the operator outside brackets. */
  lemma {:induction false} PiecesFree(s: string, op: string, depth: nat)
    requires IsOperator(op)
    ensures Free(Pieces(s, op, depth)[0], op, depth)
    ensures forall k | 0 < k < |Pieces(s, op, depth)| :: Free(Pieces(s, op, depth)[k], op, 0)
    decreases |s|
  {
    if s == "" {
    } else if OperatorAt(s, op, depth) {
      PiecesFree(s[|op|..], op, 0);
    } else {
      var rest := Pieces(s[1..], op, Deeper(s[0], depth));
      PiecesFree(s[1..], op, Deeper(s[0], depth));
      PiecesStart(s[1..], op, Deeper(s[0], depth));
      assert ([s[0]] + rest[0])[1..] == rest[0];
      assert s == [s[0]] + s[1..];
      if op <= [s[0]] + rest[0] {
        assert op == s[..|op|] by {
          assert forall k | 0 <= k < |op| :: ([s[0]] + rest[0])[k] == s[k];
        }
      }
    }
  }

  /** The splitter's laws: the parts are the trimmed pieces of the text at its top-level operators, none of which is
      left inside a part. */
  lemma SplitterLaws(s: string, op: string)
    requires IsOperator(op)
    ensures var raw := Pieces(s, op, 0);
            var parts := SplitTopLevel(s, op);
            && Join(raw, op) == s
            && |parts| == |raw|
            && (forall k | 0 <= k < |parts| :: parts[k] == Trim(raw[k]) && Free(parts[k], op, 0))
  {
    PiecesJoin(s, op, 0);
    PiecesFree(s, op, 0);
    var raw := Pieces(s, op, 0);
    forall k | 0 <= k < |raw|
      ensures Free(Trim(raw[k]), op, 0)
    {
      FreeTrimLeft(raw[k], op);
      TrimRightEnds(TrimLeft(raw[k]));
      assert Trim(raw[k]) == TrimLeft(raw[k])[..|Trim(raw[k])|];
      FreePrefix(TrimLeft(raw[k]), op, 0, |Trim(raw[k])|);
    }
  }

  /** When the text splits at all, every part is shorter than the text. */
  lemma {:induction false} PiecesShorter(s: string, op: string, depth: nat)
    requires IsOperator(op)
    ensures |Pieces(s, op, depth)| > 1 ==> forall k | 0 <= k < |Pieces(s, op, depth)| :: |Pieces(s, op, depth)[k]| < |s|
    ensures forall k | 0 <= k < |Pieces(s, op, depth)| :: |Pieces(s, op, depth)[k]| <= |s|
    decreases |s|
  {
    if s == "" {
    } else if OperatorAt(s, op, depth) {
      PiecesShorter(s[|op|..], op, 0);
    } else {
      PiecesShorter(s[1..], op, Deeper(s[0], depth));
    }
  }

  // Brackets.

  /** Reading on from a depth, the depth comes back to zero at no closing bracket but the last character. */
  predicate Wraps(s: string, depth: int) {
    if s == "" then true
    else if s[0] == '(' then Wraps(s[1..], depth + 1)
    else if s[0] == ')' then !(depth - 1 == 0 && |s| > 1) && Wraps(s[1..], depth - 1)
    else Wraps(s[1..], depth)
  }

  predicate Enclosed(s: string) {
    s != "" && s[0] == '(' && s[|s| - 1] == ')' && Wraps(s, 0)
  }

  function StripParentheses(s: string): (r: string)
    ensures |r| <= |s|
    decreases |s|
  {
    var t := Trim(s);
    if Enclosed(t) then StripParentheses(t[1..|t| - 1]) else t
  }

  /** Nothing is left to strip: no white space outside and no brackets around the whole. */
  lemma {:induction false} NothingLeftToStrip(s: string)
    ensures var r := StripParentheses(s); !Enclosed(r) && (r == "" || Tight(r))
    ensures StripParentheses(StripParentheses(s)) == StripParentheses(s)
    decreases |s|
  {
    var t := Trim(s);
    TrimIsTight(s);
    if Enclosed(t) {
      NothingLeftToStrip(t[1..|t| - 1]);
    } else if t != "" {
      TrimTight(t);
    }
  }

  /** The scan for a closing bracket that ends the opening one too early. */
  method WrapsEntireExpression(s: string) returns (wraps: bool)
    ensures wraps == Wraps(s, 0)
  {
    var depth := 0;
    assert s[0..] == s;
    for index := 0 to |s|
      invariant Wraps(s[index..], depth) == Wraps(s, 0)
    {
      assert s[index..][0] == s[index] && s[index..][1..] == s[index + 1..];
      if s[index] == '(' {
        depth := depth + 1;
      } else if s[index] == ')' {
        depth := depth - 1;
        if depth == 0 && index != |s| - 1 {
          return false;
        }
      }
    }
    assert s[|s|..] == "";
    wraps := true;
  }

  method StripExpressionParentheses(expression: string) returns (r: string)
    ensures r == StripParentheses(expression)
    ensures !Enclosed(r) && (r == "" || Tight(r))
  {
    NothingLeftToStrip(expression);
    r := Trim(expression);
    while r != "" && r[0] == '(' && r[|r| - 1] == ')'
      invariant StripParentheses(expression) == if Enclosed(r) then StripParentheses(r[1..|r| - 1]) else r
      decreases |r|
    {
      var wraps := WrapsEntireExpression(r);
      if !wraps {
        break;
      }
      r := Trim(r[1..|r| - 1]);
    }
  }
}
