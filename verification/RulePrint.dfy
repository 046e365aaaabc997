/** Rule trees, their text with any sufficient brackets and any white space, and the evaluator's correctness on it. */
module RulePrint {
  import opened Wrappers
  import opened RuleText
  import opened RuleEval

  datatype Operand =
    | Variable(name: string)
    | Braced(name: string)
    | Quoted(text: string, mark: char)
    | Bare(text: string)
    | NullWord

  /** The white space before and after something. */
  datatype Gap = Gap(before: string, after: string) {
    predicate Blank() {
      AllSpace(before) && AllSpace(after)
    }
  }

  /** A rule as it is written: the gaps are around operators, behind `!` and inside brackets. */
  datatype Rule =
    | Or(left: Rule, gap: Gap, right: Rule)
    | And(left: Rule, gap: Gap, right: Rule)
    | Not(space: string, inner: Rule)
    | Equal(a: Operand, gap: Gap, b: Operand)
    | Differs(a: Operand, gap: Gap, b: Operand)
    | Holds(a: Operand)
    | Bracketed(gap: Gap, inner: Rule)

  /** Neither a quote nor a bracket nor a character of an operator. */
  predicate Plain(c: char) {
    c !in {'"', '\'', '(', ')', '|', '&', '=', '!'}
  }

  predicate Name(s: string) {
    s != "" && forall c | c in s :: Plain(c) && !IsSpace(c) && !IsBrace(c)
  }

  /** The depth after the text, when no bracket closes below the depth zero. */
  function Scan(s: string, depth: nat): Option<nat> {
    if s == "" then Some(depth)
    else if s[0] == ')' && depth == 0 then None
    else Scan(s[1..], Deeper(s[0], depth))
  }

  predicate Balanced(s: string) {
    Scan(s, 0) == Some(0)
  }

  /** The brackets are balanced and no operator stands outside them. */
  predicate OnePiece(s: string) {
    Balanced(s) && Pieces(s, "||", 0) == [s] && Pieces(s, "&&", 0) == [s]
  }

  predicate IsQuoted(s: string) {
    s != "" && s[0] == s[|s| - 1] && (s[0] == '"' || s[0] == '\'')
  }

  predicate OfOperator(c: char) {
    c in {'|', '&', '=', '!'}
  }

  /** Fit to stand beside an operator. */
  predicate Freestanding(s: string) {
    OnePiece(s) && Tight(s) && !Enclosed(s) && !OfOperator(s[0]) && !OfOperator(s[|s| - 1])
  }

  /** A quoted text is any in one piece. A bare one is also no other operand, not in brackets as a whole, and begins and
      ends with neither white space nor a character of an operator. */
  predicate GoodOperand(o: Operand) {
    match o
    case Variable(name) => Name(name)
    case Braced(name) => Name(name)
    case Quoted(text, mark) => OnePiece(text) && (mark == '"' || mark == '\'')
    case Bare(text) => Freestanding(text) && !IsQuoted(text) && text[0] != '$' && text != "null"
    case NullWord => true
  }

  predicate Lacks(o: Operand, op: string)
    requires op != ""
  {
    match o
    case Quoted(text, _) => Find(text, op).None?
    case Bare(text) => Find(text, op).None?
    case _ => true
  }

  /** Good operands, of which the comparison's operator is the first to be found: `==` is looked for before `!=`. */
  predicate GoodAtom(t: Rule) {
    match t
    case Equal(a, g, b) => GoodOperand(a) && g.Blank() && GoodOperand(b) && Lacks(a, "==")
    case Differs(a, g, b) =>
      GoodOperand(a) && g.Blank() && GoodOperand(b) && Lacks(a, "!=") && Lacks(a, "==") && Lacks(b, "==")
    case Holds(a) => GoodOperand(a) && Lacks(a, "==") && Lacks(a, "!=")
    case _ => false
  }

  /** How tightly the outermost construct binds. */
  function Level(t: Rule): nat {
    match t
    case Or(_, _, _) => 0
    case And(_, _, _) => 1
    case _ => 2
  }

  /** Good operands, white space in the gaps, and brackets wherever a looser construct stands inside a tighter one. */
  predicate Writable(t: Rule) {
    match t
    case Or(l, g, r) => Writable(l) && g.Blank() && Writable(r)
    case And(l, g, r) => Writable(l) && g.Blank() && Writable(r) && Level(l) >= 1 && Level(r) >= 1
    case Not(w, e) => AllSpace(w) && Writable(e) && Level(e) == 2
    case Bracketed(g, e) => g.Blank() && Writable(e)
    case _ => GoodAtom(t)
  }

  // Meaning.

  function Lookup(name: string, variables: Variables): string {
    if name in variables then variables[name] else ""
  }

  function OperandValue(o: Operand, variables: Variables): string {
    match o
    case Variable(name) => Lookup(name, variables)
    case Braced(name) => Lookup(name, variables)
    case Quoted(text, _) => text
    case Bare(text) => text
    case NullWord => ""
  }

  function Truth(t: Rule, variables: Variables): bool {
    match t
    case Or(l, g, r) => Truth(l, variables) || Truth(r, variables)
    case And(l, g, r) => Truth(l, variables) && Truth(r, variables)
    case Not(w, e) => !Truth(e, variables)
    case Equal(a, g, b) => OperandValue(a, variables) == OperandValue(b, variables)
    case Differs(a, g, b) => OperandValue(a, variables) != OperandValue(b, variables)
    case Holds(a) => OperandValue(a, variables) != ""
    case Bracketed(g, e) => Truth(e, variables)
  }

  // Text.

  function OperandText(o: Operand): string {
    match o
    case Variable(name) => "$" + name
    case Braced(name) => "${" + name + "}"
    case Quoted(text, mark) => [mark] + text + [mark]
    case Bare(text) => text
    case NullWord => "null"
  }

  /** The text. */
  function Text(t: Rule): string {
    match t
    case Or(l, g, r) => Text(l) + g.before + "||" + g.after + Text(r)
    case And(l, g, r) => Text(l) + g.before + "&&" + g.after + Text(r)
    case Not(w, e) => "!" + w + Text(e)
    case Equal(a, g, b) => OperandText(a) + g.before + "==" + g.after + OperandText(b)
    case Differs(a, g, b) => OperandText(a) + g.before + "!=" + g.after + OperandText(b)
    case Holds(a) => OperandText(a)
    case Bracketed(g, e) => "(" + g.before + Text(e) + g.after + ")"
  }

  // Finding an operator.

  /** No two characters of the two texts meet in the operator. */
  predicate Seam(a: string, b: string, op: string)
    requires |op| == 2
  {
    a == "" || b == "" || a[|a| - 1] != op[0] || b[0] != op[1]
  }

  lemma {:induction false} FindNoneConcat(a: string, b: string, op: string)
    requires |op| == 2 && Find(a, op).None? && Find(b, op).None? && Seam(a, b, op)
    ensures Find(a + b, op).None?
    decreases |a|
  {
    if a == "" {
      assert a + b == b;
    } else {
      assert (a + b)[1..] == a[1..] + b;
      FindNoneConcat(a[1..], b, op);
      assert |a| > 1 ==> (a + b)[..2] == a[..2];
    }
  }

  /** An operator is found where it stands when there is none before. */
  lemma {:induction false} FindAt(x: string, op: string, y: string)
    requires |op| == 2 && Find(x, op).None? && Seam(x, op, op)
    ensures Find(x + op + y, op) == Some(|x|)
    decreases |x|
  {
    var s := x + op + y;
    if x == "" {
      assert s == op + y;
    } else {
      assert s[1..] == x[1..] + op + y;
      FindAt(x[1..], op, y);
      assert |x| > 1 ==> s[..2] == x[..2];
    }
  }

  lemma {:induction false} FindNone(s: string, op: string)
    requires |op| == 2 && op[1] == '=' && forall c | c in s :: c != '='
    ensures Find(s, op) == None
    decreases |s|
  {
    if |s| >= 2 {
      assert s[1] in s;
      assert forall c | c in s[1..] :: c in s;
      FindNone(s[1..], op);
    }
  }

  // Splitting a concatenation.

  function JoinAt(xs: seq<string>, ys: seq<string>): (r: seq<string>)
    requires xs != [] && ys != []
  {
    xs[..|xs| - 1] + [xs[|xs| - 1] + ys[0]] + ys[1..]
  }

  lemma JoinAtBefore(prefix: string, xs: seq<string>, ys: seq<string>)
    requires xs != [] && ys != []
    ensures JoinAt(Before(prefix, xs), ys) == Before(prefix, JoinAt(xs, ys))
  {
    if |xs| == 1 {
      assert prefix + xs[0] + ys[0] == prefix + (xs[0] + ys[0]);
    }
  }

  lemma JoinAtCons(x: string, xs: seq<string>, ys: seq<string>)
    requires xs != [] && ys != []
    ensures JoinAt([x] + xs, ys) == [x] + JoinAt(xs, ys)
  {
  }

  lemma JoinAtEmpty(ys: seq<string>)
    requires ys != []
    ensures JoinAt([""], ys) == ys
  {
    assert "" + ys[0] == ys[0];
  }

  predicate EndsFree(a: string, op: string)
    requires IsOperator(op)
  {
    a == "" || a[|a| - 1] != op[0]
  }

  /** The pieces of two texts put together are the pieces of each, with the two at the seam in one. */
  lemma {:induction false} PiecesConcat(a: string, b: string, op: string, depth: nat)
    requires IsOperator(op) && Seam(a, b, op)
    ensures Pieces(a + b, op, depth) == JoinAt(Pieces(a, op, depth), Pieces(b, op, DepthAfter(a, depth)))
    decreases |a|
  {
    if a == "" {
      assert a + b == b;
      JoinAtEmpty(Pieces(b, op, depth));
    } else if OperatorAt(a, op, depth) {
      assert (a + b)[|op|..] == a[|op|..] + b;
      assert op <= a + b;
      assert a == op + a[|op|..];
      PiecesConcat(a[|op|..], b, op, 0);
      JoinAtCons("", Pieces(a[|op|..], op, 0), Pieces(b, op, DepthAfter(a, depth)));
    } else {
      assert (a + b)[1..] == a[1..] + b;
      assert !OperatorAt(a + b, op, depth) by {
        if op <= a + b {
          assert op[0] == (a + b)[0] && op[1] == (a + b)[1];
          if |a| > 1 {
            assert op <= a by {
              assert a[..2] == op;
            }
          }
        }
      }
      PiecesConcat(a[1..], b, op, Deeper(a[0], depth));
      JoinAtBefore([a[0]], Pieces(a[1..], op, Deeper(a[0], depth)), Pieces(b, op, DepthAfter(a, depth)));
    }
  }

  lemma {:induction false} DepthConcat(a: string, b: string, depth: nat)
    ensures DepthAfter(a + b, depth) == DepthAfter(b, DepthAfter(a, depth))
    decreases |a|
  {
    if a == "" {
      assert a + b == b;
    } else {
      assert (a + b)[1..] == a[1..] + b;
      DepthConcat(a[1..], b, Deeper(a[0], depth));
    }
  }

  /** In one piece, and back at the depth it was read from. */
  predicate Whole(s: string, op: string, depth: nat)
    requires IsOperator(op)
  {
    Pieces(s, op, depth) == [s] && DepthAfter(s, depth) == depth
  }

  lemma WholeConcat(a: string, b: string, op: string, depth: nat)
    requires IsOperator(op) && Seam(a, b, op) && Whole(a, op, depth) && Whole(b, op, depth)
    ensures Whole(a + b, op, depth)
  {
    PiecesConcat(a, b, op, depth);
    DepthConcat(a, b, depth);
  }

  lemma {:induction false} WholeWithoutBrackets(s: string, op: string, depth: nat)
    requires IsOperator(op) && forall c | c in s :: c != '(' && c != ')' && c != op[0]
    ensures Whole(s, op, depth)
    decreases |s|
  {
    if s != "" {
      assert forall c | c in s[1..] :: c in s;
      assert s[0] in s;
      WholeWithoutBrackets(s[1..], op, depth);
      assert s == [s[0]] + s[1..];
    }
  }

  // Brackets.

  lemma {:induction false} ScanConcat(a: string, b: string, depth: nat)
    requires Scan(a, depth).Some?
    ensures Scan(a + b, depth) == Scan(b, Scan(a, depth).value)
    decreases |a|
  {
    if a == "" {
      assert a + b == b;
    } else {
      assert (a + b)[1..] == a[1..] + b;
      ScanConcat(a[1..], b, Deeper(a[0], depth));
    }
  }

  lemma {:induction false} ScanDeeper(s: string, depth: nat)
    requires Scan(s, depth).Some?
    ensures Scan(s, depth + 1) == Some(Scan(s, depth).value + 1)
    ensures DepthAfter(s, depth) == Scan(s, depth).value
    decreases |s|
  {
    if s != "" {
      ScanDeeper(s[1..], Deeper(s[0], depth));
    }
  }

  lemma {:induction false} ScanWithoutBrackets(s: string, depth: nat)
    requires forall c | c in s :: c != '(' && c != ')'
    ensures Scan(s, depth) == Some(depth)
    decreases |s|
  {
    if s != "" {
      assert forall c | c in s[1..] :: c in s;
      assert s[0] in s;
      ScanWithoutBrackets(s[1..], depth);
    }
  }

  /** Inside brackets nothing splits. */
  lemma {:induction false} InsideIsOnePiece(s: string, op: string, depth: nat)
    requires IsOperator(op) && Scan(s, depth).Some?
    ensures Pieces(s, op, depth + 1) == [s]
    decreases |s|
  {
    if s != "" {
      InsideIsOnePiece(s[1..], op, Deeper(s[0], depth));
      assert s == [s[0]] + s[1..];
    }
  }

  /** Brackets that open before a text and close in it do not wrap what comes after. */
  lemma {:induction false} ClosesEarly(s: string, depth: nat, rest: string)
    requires Scan(s, depth) == Some(0) && depth > 0 && rest != ""
    ensures !Wraps(s + rest, depth)
    decreases |s|
  {
    assert (s + rest)[1..] == s[1..] + rest;
    if !(s[0] == ')' && depth == 1) {
      ClosesEarly(s[1..], Deeper(s[0], depth), rest);
    }
  }

  /** Brackets opened before a balanced text are still open after it. */
  lemma {:induction false} StaysOpen(s: string, depth: nat, rest: string)
    requires Scan(s, depth).Some?
    ensures Wraps(s + rest, depth + 1) == Wraps(rest, Scan(s, depth).value + 1)
    decreases |s|
  {
    if s == "" {
      assert s + rest == rest;
    } else {
      assert (s + rest)[1..] == s[1..] + rest;
      StaysOpen(s[1..], Deeper(s[0], depth), rest);
    }
  }

  // Operands.

  lemma {:induction false} StripBracesName(name: string)
    requires Name(name)
    ensures StripBraces(name) == name && StripBraces("{" + name + "}") == name
  {
    assert name[0] in name && name[|name| - 1] in name;
    assert ("{" + name + "}")[1..] == name + "}";
    assert (name + "}")[..|name + "}"| - 1] == name;
    assert (name + "}")[0] == name[0];
  }

  lemma OnePieceIsWhole(s: string, op: string)
    requires OnePiece(s) && IsOperator(op)
    ensures Whole(s, op, 0)
  {
    ScanDeeper(s, 0);
  }

  lemma QuotedIsWhole(text: string, mark: char, op: string)
    requires OnePiece(text) && (mark == '"' || mark == '\'') && IsOperator(op)
    ensures Whole([mark] + text + [mark], op, 0)
  {
    OnePieceIsWhole(text, op);
    WholeWithoutBrackets([mark], op, 0);
    WholeConcat([mark], text, op, 0);
    WholeConcat([mark] + text, [mark], op, 0);
  }

  lemma QuotedIsBalanced(text: string, mark: char)
    requires OnePiece(text) && (mark == '"' || mark == '\'')
    ensures Balanced([mark] + text + [mark])
  {
    ScanWithoutBrackets([mark], 0);
    ScanConcat([mark], text, 0);
    ScanConcat([mark] + text, [mark], 0);
  }

  lemma OperandIsFreestanding(o: Operand)
    requires GoodOperand(o)
    ensures Freestanding(OperandText(o))
  {
    var s := OperandText(o);
    if o.Quoted? {
      QuotedIsWhole(o.text, o.mark, "||");
      QuotedIsWhole(o.text, o.mark, "&&");
      QuotedIsBalanced(o.text, o.mark);
    } else if !o.Bare? {
      assert o.Variable? ==> s[|s| - 1] == o.name[|o.name| - 1] && o.name[|o.name| - 1] in o.name;
      ScanWithoutBrackets(s, 0);
      WholeWithoutBrackets(s, "||", 0);
      WholeWithoutBrackets(s, "&&", 0);
      assert s[0] in s && s[|s| - 1] in s;
    }
  }

  /** Its value is the operand's. */
  lemma OperandTextValue(o: Operand, variables: Variables)
    requires GoodOperand(o)
    ensures Value(OperandText(o), variables) == OperandValue(o, variables)
  {
    var s := OperandText(o);
    OperandIsFreestanding(o);
    TrimTight(s);
    match o
    case Variable(name) =>
      StripBracesName(name);
      assert s[1..] == name;
    case Braced(name) =>
      StripBracesName(name);
      assert s[1..] == "{" + name + "}";
    case Quoted(text, mark) =>
      assert Inner(s) == text;
    case Bare(text) =>
    case NullWord =>
  }

  /** White space around an operand does not change its value. */
  lemma PaddedValue(left: string, o: Operand, right: string, variables: Variables)
    requires GoodOperand(o) && AllSpace(left) && AllSpace(right)
    ensures Value(left + OperandText(o) + right, variables) == OperandValue(o, variables)
  {
    OperandTextValue(o, variables);
    TrimPads(left, OperandText(o), right);
  }

  lemma LacksInText(o: Operand, op: string)
    requires GoodOperand(o) && (op == "==" || op == "!=") && Lacks(o, op)
    ensures Find(OperandText(o), op).None?
  {
    match o
    case Quoted(text, mark) =>
      FindNone([mark], op);
      FindNoneConcat([mark], text, op);
      FindNoneConcat([mark] + text, [mark], op);
    case Bare(_) =>
    case _ => FindNone(OperandText(o), op);
  }

  // What the text of a tree looks like.

  /** Tight, balanced, and without an operator character at either end. */
  predicate GoodText(s: string) {
    Tight(s) && Balanced(s) && s[0] !in {'|', '&'} && s[|s| - 1] !in {'|', '&'}
  }

  lemma SpaceIsInert(pad: string, op: string, depth: nat)
    requires AllSpace(pad) && IsOperator(op)
    ensures Whole(pad, op, depth) && EndsFree(pad, op)
  {
    assert pad != "" ==> pad[|pad| - 1] in pad;
    assert forall c | c in pad :: c !in {'(', ')', '|', '&'};
    WholeWithoutBrackets(pad, op, depth);
  }

  lemma GoodConcat(a: string, middle: string, b: string)
    requires GoodText(a) && GoodText(b) && forall c | c in middle :: c != '(' && c != ')'
    ensures GoodText(a + middle + b)
  {
    ScanConcat(a, middle, 0);
    ScanWithoutBrackets(middle, 0);
    ScanConcat(a + middle, b, 0);
  }

  lemma PaddedBalanced(g: Gap, s: string)
    requires g.Blank() && Balanced(s)
    ensures Balanced(g.before + s + g.after)
  {
    ScanWithoutBrackets(g.before, 0);
    ScanWithoutBrackets(g.after, 0);
    ScanConcat(g.before, s, 0);
    ScanConcat(g.before + s, g.after, 0);
  }

  lemma GoodJoin(a: string, g: Gap, op: string, b: string)
    requires GoodText(a) && GoodText(b) && g.Blank() && forall c | c in op :: c != '(' && c != ')'
    ensures GoodText(a + g.before + op + g.after + b)
  {
    var middle := g.before + op + g.after;
    assert forall c | c in middle :: c in g.before || c in op || c in g.after;
    GoodConcat(a, middle, b);
    assert a + g.before + op + g.after + b == a + middle + b;
  }

  lemma GoodNot(pad: string, s: string)
    requires GoodText(s) && AllSpace(pad)
    ensures GoodText("!" + pad + s)
  {
    ScanWithoutBrackets("!" + pad, 0);
    ScanConcat("!" + pad, s, 0);
  }

  lemma GoodBrackets(g: Gap, s: string)
    requires GoodText(s) && g.Blank()
    ensures GoodText("(" + g.before + s + g.after + ")")
  {
    PaddedBalanced(g, s);
    var inner := g.before + s + g.after;
    assert "(" + g.before + s + g.after + ")" == "(" + (inner + ")");
    ScanDeeper(inner, 0);
    ScanConcat(inner, ")", 1);
    assert ("(" + (inner + ")"))[1..] == inner + ")";
    assert Scan(")", 1) == Scan(")"[1..], 0) == Some(0);
  }

  lemma {:induction false} TextIsGood(t: Rule)
    requires Writable(t)
    ensures GoodText(Text(t))
  {
    match t
    case Or(l, g, r) =>
      TextIsGood(l);
      TextIsGood(r);
      GoodJoin(Text(l), g, "||", Text(r));
    case And(l, g, r) =>
      TextIsGood(l);
      TextIsGood(r);
      GoodJoin(Text(l), g, "&&", Text(r));
    case Not(w, e) =>
      TextIsGood(e);
      GoodNot(w, Text(e));
    case Equal(a, g, b) =>
      OperandIsFreestanding(a);
      OperandIsFreestanding(b);
      GoodJoin(OperandText(a), g, "==", OperandText(b));
    case Differs(a, g, b) =>
      OperandIsFreestanding(a);
      OperandIsFreestanding(b);
      GoodJoin(OperandText(a), g, "!=", OperandText(b));
    case Holds(a) =>
      OperandIsFreestanding(a);
    case Bracketed(g, e) =>
      TextIsGood(e);
      GoodBrackets(g, Text(e));
  }

  // Stripping.

  lemma SameTrimSameStrip(a: string, b: string)
    requires Trim(a) == Trim(b)
    ensures StripParentheses(a) == StripParentheses(b)
  {
  }

  lemma BracketsEnclose(inner: string)
    requires Balanced(inner)
    ensures Enclosed("(" + inner + ")")
  {
    assert "(" + inner + ")" == "(" + (inner + ")");
    assert ("(" + (inner + ")"))[1..] == inner + ")";
    StaysOpen(inner, 0, ")");
    assert ")"[1..] == "";
    assert Wraps(")", 1);
  }

  lemma StripBrackets(g: Gap, s: string)
    requires GoodText(s) && g.Blank()
    ensures StripParentheses("(" + g.before + s + g.after + ")") == StripParentheses(s)
  {
    var inner := g.before + s + g.after;
    var whole := "(" + inner + ")";
    assert "(" + g.before + s + g.after + ")" == whole;
    PaddedBalanced(g, s);
    BracketsEnclose(inner);
    assert whole[1..|whole| - 1] == inner;
    TrimTight(whole);
    assert StripParentheses(whole) == StripParentheses(inner);
    TrimPads(g.before, s, g.after);
    SameTrimSameStrip(inner, s);
  }

  /** A text that goes on after a balanced beginning is not enclosed in one pair of brackets. */
  lemma NotEnclosed(left: string, rest: string)
    requires GoodText(left) && rest != ""
    ensures !Enclosed(left + rest)
  {
    if left[0] == '(' {
      assert (left + rest)[1..] == left[1..] + rest;
      ClosesEarly(left[1..], 1, rest);
    }
  }

  lemma JoinNotEnclosed(a: string, g: Gap, op: string, b: string)
    requires GoodText(a) && op != ""
    ensures !Enclosed(a + g.before + op + g.after + b)
  {
    NotEnclosed(a, g.before + op + g.after + b);
    assert a + g.before + op + g.after + b == a + (g.before + op + g.after + b);
  }

  lemma TextNotEnclosed(t: Rule)
    requires Writable(t) && !t.Bracketed?
    ensures !Enclosed(Text(t))
  {
    match t
    case Or(l, g, r) =>
      TextIsGood(l);
      JoinNotEnclosed(Text(l), g, "||", Text(r));
    case And(l, g, r) =>
      TextIsGood(l);
      JoinNotEnclosed(Text(l), g, "&&", Text(r));
    case Not(w, e) =>
    case Equal(a, g, b) =>
      OperandIsFreestanding(a);
      JoinNotEnclosed(OperandText(a), g, "==", OperandText(b));
    case Differs(a, g, b) =>
      OperandIsFreestanding(a);
      JoinNotEnclosed(OperandText(a), g, "!=", OperandText(b));
    case Holds(a) =>
      OperandIsFreestanding(a);
  }

  /** Only a bracketed tree has its brackets stripped. */
  lemma StripText(t: Rule)
    requires Writable(t)
    ensures StripParentheses(Text(t)) ==
            if t.Bracketed? then StripParentheses(Text(t.inner)) else Text(t)
  {
    TextIsGood(t);
    if t.Bracketed? {
      TextIsGood(t.inner);
      StripBrackets(t.gap, Text(t.inner));
    } else {
      TextNotEnclosed(t);
    }
  }

  // Splitting.

  /** The operands of a chain of one connective. */
  function Terms(t: Rule, either: bool): (r: seq<Rule>)
    ensures r != []
  {
    if either && t.Or? then Terms(t.left, either) + Terms(t.right, either)
    else if !either && t.And? then Terms(t.left, either) + Terms(t.right, either)
    else [t]
  }

  function Connective(either: bool): string {
    if either then "||" else "&&"
  }

  function Texts(ts: seq<Rule>): (r: seq<string>) {
    seq(|ts|, k requires 0 <= k < |ts| => Text(ts[k]))
  }

  lemma MiddleIsWhole(g: Gap, inner: string, op: string)
    requires IsOperator(op) && g.Blank()
    requires inner != "" && forall c | c in inner :: c != '(' && c != ')' && c != op[0]
    ensures Whole(g.before + inner + g.after, op, 0)
    ensures (g.before + inner + g.after)[|g.before + inner + g.after| - 1] != op[0]
  {
    var middle := g.before + inner + g.after;
    assert forall c | c in middle :: c in g.before || c in inner || c in g.after;
    assert middle[|middle| - 1] in middle;
    WholeWithoutBrackets(middle, op, 0);
  }

  lemma ThreeAreWhole(a: string, middle: string, b: string, op: string)
    requires IsOperator(op) && EndsFree(a, op) && middle != "" && EndsFree(middle, op)
    requires Whole(a, op, 0) && Whole(middle, op, 0) && Whole(b, op, 0)
    ensures Whole(a + middle + b, op, 0)
  {
    WholeConcat(a, middle, op, 0);
    assert (a + middle)[|a + middle| - 1] == middle[|middle| - 1];
    WholeConcat(a + middle, b, op, 0);
  }

  lemma JoinIsWhole(a: string, g: Gap, inner: string, b: string, op: string)
    requires GoodText(a) && IsOperator(op) && g.Blank() && Whole(a, op, 0) && Whole(b, op, 0)
    requires inner != "" && forall c | c in inner :: c != '(' && c != ')' && c != op[0]
    ensures Whole(a + g.before + inner + g.after + b, op, 0)
  {
    var middle := g.before + inner + g.after;
    MiddleIsWhole(g, inner, op);
    ThreeAreWhole(a, middle, b, op);
    assert a + g.before + inner + g.after + b == a + middle + b;
  }

  lemma NotIsWhole(pad: string, s: string, op: string)
    requires IsOperator(op) && AllSpace(pad) && Whole(s, op, 0)
    ensures Whole("!" + pad + s, op, 0)
  {
    var bang := "!" + pad;
    assert forall c | c in bang :: c !in {'(', ')', '|', '&'};
    assert bang[|bang| - 1] in bang;
    WholeWithoutBrackets(bang, op, 0);
    WholeConcat(bang, s, op, 0);
  }

  lemma OperandIsWhole(o: Operand, op: string)
    requires GoodOperand(o) && IsOperator(op)
    ensures Whole(OperandText(o), op, 0)
  {
    OperandIsFreestanding(o);
    OnePieceIsWhole(OperandText(o), op);
  }

  lemma PaddedEndsFree(g: Gap, s: string, op: string)
    requires g.Blank() && GoodText(s) && IsOperator(op)
    ensures EndsFree(g.before + s + g.after, op)
  {
    var inner := g.before + s + g.after;
    SpaceIsInert(g.after, op, 0);
    if g.after == "" {
      assert inner == g.before + s;
      assert inner[|inner| - 1] == s[|s| - 1];
    } else {
      assert inner[|inner| - 1] == g.after[|g.after| - 1];
    }
  }

  lemma BracketsAreWhole(inner: string, op: string)
    requires IsOperator(op) && Balanced(inner) && EndsFree(inner, op)
    ensures Whole("(" + inner + ")", op, 0)
  {
    var s := "(" + inner + ")";
    InsideIsOnePiece(inner, op, 0);
    ScanDeeper(inner, 0);
    ScanDeeper(inner, 1);
    assert s[1..] == inner + ")";
    PiecesConcat(inner, ")", op, 1);
    DepthConcat(inner, ")", 1);
    assert ")"[1..] == "";
    assert [')'] + "" == ")";
    assert Pieces(")", op, 1) == [")"];
    assert Pieces(inner + ")", op, 1) == [inner + ")"];
    assert "(" + (inner + ")") == s;
  }

  /** A tree whose outermost construct binds tighter than the connective is in one piece. */
  lemma {:induction false} TighterIsWhole(t: Rule, either: bool)
    requires Writable(t) && Level(t) >= (if either then 1 else 2)
    ensures Whole(Text(t), Connective(either), 0)
  {
    var op := Connective(either);
    match t
    case And(l, g, r) =>
      TighterIsWhole(l, either);
      TighterIsWhole(r, either);
      TextIsGood(l);
      JoinIsWhole(Text(l), g, "&&", Text(r), op);
    case Not(w, e) =>
      TighterIsWhole(e, either);
      NotIsWhole(w, Text(e), op);
    case Equal(a, g, b) =>
      OperandIsFreestanding(a);
      OperandIsWhole(a, op);
      OperandIsWhole(b, op);
      JoinIsWhole(OperandText(a), g, "==", OperandText(b), op);
    case Differs(a, g, b) =>
      OperandIsFreestanding(a);
      OperandIsWhole(a, op);
      OperandIsWhole(b, op);
      JoinIsWhole(OperandText(a), g, "!=", OperandText(b), op);
    case Holds(a) =>
      OperandIsWhole(a, op);
    case Bracketed(g, e) =>
      var inner := g.before + Text(e) + g.after;
      TextIsGood(e);
      PaddedBalanced(g, Text(e));
      PaddedEndsFree(g, Text(e), op);
      BracketsAreWhole(inner, op);
      assert "(" + g.before + Text(e) + g.after + ")" == "(" + inner + ")";
  }

  lemma TrimAllConcat(xs: seq<string>, ys: seq<string>)
    ensures TrimAll(xs + ys) == TrimAll(xs) + TrimAll(ys)
  {
  }

  lemma TrimAllPadRight(xs: seq<string>, pad: string)
    requires xs != [] && AllSpace(pad)
    ensures TrimAll(JoinAt(xs, [pad])) == TrimAll(xs)
  {
    var n := |xs| - 1;
    TrimPads("", xs[n], pad);
    assert "" + xs[n] + pad == xs[n] + pad;
    assert JoinAt(xs, [pad])[n] == xs[n] + pad;
  }

  lemma TrimAllPadLeft(pad: string, ys: seq<string>)
    requires ys != [] && AllSpace(pad)
    ensures TrimAll(JoinAt([pad], ys)) == TrimAll(ys)
  {
    TrimPads(pad, ys[0], "");
    assert pad + ys[0] + "" == pad + ys[0];
  }

  lemma JoinAtSplit(xs: seq<string>, ys: seq<string>)
    requires xs != []
    ensures JoinAt(xs, [""] + ys) == xs + ys
  {
    assert xs[|xs| - 1] + "" == xs[|xs| - 1];
  }

  /** A chain's pieces, trimmed, are those of its two sides. */
  lemma ChainSplits(l: string, r: string, op: string, g: Gap)
    requires IsOperator(op) && GoodText(l) && g.Blank()
    ensures SplitTopLevel(l + g.before + op + g.after + r, op) == SplitTopLevel(l, op) + SplitTopLevel(r, op)
  {
    var left, right := l + g.before, g.after + r;
    assert l + g.before + op + g.after + r == left + (op + right);
    SpaceIsInert(g.before, op, 0);
    SpaceIsInert(g.after, op, 0);
    ScanDeeper(l, 0);
    DepthConcat(l, g.before, 0);
    PiecesConcat(l, g.before, op, 0);
    PiecesConcat(g.after, r, op, 0);
    PiecesConcat(left, op + right, op, 0);
    assert (op + right)[|op|..] == right;
    assert op <= op + right;
    assert Pieces(op + right, op, 0) == [""] + Pieces(right, op, 0);
    JoinAtSplit(Pieces(left, op, 0), Pieces(right, op, 0));
    TrimAllConcat(Pieces(left, op, 0), Pieces(right, op, 0));
    TrimAllPadRight(Pieces(l, op, 0), g.before);
    TrimAllPadLeft(g.after, Pieces(r, op, 0));
  }

  lemma TextsConcat(ts: seq<Rule>, us: seq<Rule>)
    ensures Texts(ts + us) == Texts(ts) + Texts(us)
  {
  }

  lemma WholeSplits(t: Rule, op: string)
    requires Writable(t) && IsOperator(op) && Whole(Text(t), op, 0)
    ensures SplitTopLevel(Text(t), op) == Texts([t])
  {
    TextIsGood(t);
    TrimTight(Text(t));
  }

  /** Splitting the text of a tree gives the texts of its terms. */
  lemma {:induction false} SplitGivesTerms(t: Rule, either: bool)
    requires Writable(t) && (either || Level(t) >= 1)
    ensures SplitTopLevel(Text(t), Connective(either)) == Texts(Terms(t, either))
  {
    var op := Connective(either);
    if (either && t.Or?) || (!either && t.And?) {
      SplitGivesTerms(t.left, either);
      SplitGivesTerms(t.right, either);
      TextIsGood(t.left);
      ChainSplits(Text(t.left), Text(t.right), op, t.gap);
      TextsConcat(Terms(t.left, either), Terms(t.right, either));
    } else {
      TighterIsWhole(t, either);
      WholeSplits(t, op);
      assert Terms(t, either) == [t];
    }
  }

  function Size(t: Rule): nat {
    match t
    case Or(l, g, r) => 1 + Size(l) + Size(r)
    case And(l, g, r) => 1 + Size(l) + Size(r)
    case Not(w, e) => 1 + Size(e)
    case Bracketed(g, e) => 1 + Size(e)
    case _ => 1
  }

  lemma {:induction false} TermsAreParts(t: Rule, either: bool)
    requires Writable(t) && (either || Level(t) >= 1)
    ensures forall u | u in Terms(t, either) :: Writable(u) && (u == t || Size(u) < Size(t))
    ensures |Terms(t, either)| > 1 <==> if either then t.Or? else t.And?
    ensures |Terms(t, either)| > 1 ==> forall u | u in Terms(t, either) :: Size(u) < Size(t)
  {
    if (either && t.Or?) || (!either && t.And?) {
      TermsAreParts(t.left, either);
      TermsAreParts(t.right, either);
    }
  }

  lemma {:induction false} TermsTruth(t: Rule, either: bool, variables: Variables)
    ensures Truth(t, variables) <==>
            if either then exists u | u in Terms(t, either) :: Truth(u, variables)
            else forall u | u in Terms(t, either) :: Truth(u, variables)
  {
    if (either && t.Or?) || (!either && t.And?) {
      TermsTruth(t.left, either, variables);
      TermsTruth(t.right, either, variables);
    } else {
      assert Terms(t, either)[0] == t;
    }
  }

  // The evaluator on the text.

  lemma SameStripSameMatch(a: string, b: string, variables: Variables)
    requires StripParentheses(a) == StripParentheses(b)
    ensures Matches(a, variables) == Matches(b, variables)
  {
  }

  /** A text that neither splits nor strips is an atom. */
  lemma AtomText(s: string, variables: Variables)
    requires StripParentheses(s) == s && s != ""
    requires |SplitTopLevel(s, "||")| == 1 && |SplitTopLevel(s, "&&")| == 1
    ensures Matches(s, variables) == AtomMatches(s, variables)
  {
  }

  /** A comparison splits at its operator. */
  lemma ComparisonSplits(left: string, same: bool, right: string, variables: Variables)
    requires left != "" && left[0] != '!' && left[|left| - 1] != '='
    requires if same then Find(left, "==").None?
             else Find(left, "!=").None? && Find(left, "==").None? && Find(right, "==").None? && Seam("=", right, "==")
    requires Trim(left + (if same then "==" else "!=") + right) == left + (if same then "==" else "!=") + right
    ensures AtomMatches(left + (if same then "==" else "!=") + right, variables) <==>
            (same <==> Value(left, variables) == Value(right, variables))
  {
    var op := if same then "==" else "!=";
    var s := left + op + right;
    FindAt(left, op, right);
    if !same {
      assert Find("!="[1..], "==").None?;
      FindNoneConcat(left, op, "==");
      FindNoneConcat(left + op, right, "==");
    }
    assert s[0] == left[0] && s[..|left|] == left && s[|left| + 2..] == right;
  }

  /** A side of a comparison with its white space: its ends are of no operator, and it has the operand's value. */
  lemma SideValues(o: Operand, pad: string, variables: Variables)
    requires GoodOperand(o) && AllSpace(pad)
    ensures var s := OperandText(o);
            && Tight(s) && !OfOperator(s[0]) && !OfOperator((s + pad)[|s + pad| - 1]) && !OfOperator((pad + s)[0])
            && Value(s + pad, variables) == OperandValue(o, variables)
            && Value(pad + s, variables) == OperandValue(o, variables)
  {
    var s := OperandText(o);
    OperandIsFreestanding(o);
    PaddedValue("", o, pad, variables);
    assert "" + s + pad == s + pad;
    PaddedValue(pad, o, "", variables);
    assert pad + s + "" == pad + s;
    assert pad != "" ==> pad[0] in pad && pad[|pad| - 1] in pad;
  }

  /** White space brings no comparison. */
  lemma SideLacks(o: Operand, pad: string, op: string)
    requires GoodOperand(o) && AllSpace(pad) && (op == "==" || op == "!=") && Lacks(o, op)
    ensures Find(OperandText(o) + pad, op).None? && Find(pad + OperandText(o), op).None?
  {
    var s := OperandText(o);
    LacksInText(o, op);
    OperandIsFreestanding(o);
    assert forall c | c in pad :: IsSpace(c);
    assert pad != "" ==> pad[0] in pad && pad[|pad| - 1] in pad;
    FindNone(pad, op);
    FindNoneConcat(s, pad, op);
    FindNoneConcat(pad, s, op);
  }

  lemma ComparisonAtom(a: Operand, g: Gap, same: bool, b: Operand, variables: Variables)
    requires GoodAtom(if same then Equal(a, g, b) else Differs(a, g, b))
    ensures var s := OperandText(a) + g.before + (if same then "==" else "!=") + g.after + OperandText(b);
            AtomMatches(s, variables) <==> (same <==> OperandValue(a, variables) == OperandValue(b, variables))
  {
    var op := if same then "==" else "!=";
    var left, right := OperandText(a) + g.before, g.after + OperandText(b);
    assert OperandText(a) + g.before + op + g.after + OperandText(b) == left + op + right;
    SideValues(a, g.before, variables);
    SideValues(b, g.after, variables);
    SideLacks(a, g.before, "==");
    if !same {
      SideLacks(a, g.before, "!=");
      SideLacks(b, g.after, "==");
    }
    TrimTight(left + op + right);
    ComparisonSplits(left, same, right, variables);
  }

  lemma HoldsAtom(a: Operand, variables: Variables)
    requires GoodAtom(Holds(a))
    ensures AtomMatches(OperandText(a), variables) <==> OperandValue(a, variables) != ""
  {
    OperandIsFreestanding(a);
    OperandTextValue(a, variables);
    TrimTight(OperandText(a));
    LacksInText(a, "==");
    LacksInText(a, "!=");
  }

  lemma NotAtom(pad: string, s: string, variables: Variables)
    requires GoodText(s) && AllSpace(pad)
    ensures AtomMatches("!" + pad + s, variables) == !Matches(s, variables)
  {
    var whole := "!" + pad + s;
    TrimTight(whole);
    assert whole[1..] == pad + s + "";
    TrimPads(pad, s, "");
    TrimTight(s);
  }

  /** Evaluating the text of a tree, with any brackets it needs and any more, and any white space, gives the tree's
      truth value for every variable map. */
  lemma {:induction false} EvaluatorCorrect(t: Rule, variables: Variables)
    requires Writable(t)
    ensures Matches(Text(t), variables) == Truth(t, variables)
    decreases Size(t)
  {
    var s := Text(t);
    TextIsGood(t);
    StripText(t);
    if t.Bracketed? {
      EvaluatorCorrect(t.inner, variables);
      SameStripSameMatch(s, Text(t.inner), variables);
    } else if t.Or? {
      ChainCorrect(t, true, variables);
    } else {
      SplitGivesTerms(t, true);
      TermsAreParts(t, true);
      if t.And? {
        ChainCorrect(t, false, variables);
      } else {
        SplitGivesTerms(t, false);
        TermsAreParts(t, false);
        AtomText(s, variables);
        match t
        case Not(w, e) =>
          TextIsGood(e);
          NotAtom(w, Text(e), variables);
          EvaluatorCorrect(e, variables);
        case Equal(a, g, b) => ComparisonAtom(a, g, true, b, variables);
        case Differs(a, g, b) => ComparisonAtom(a, g, false, b, variables);
        case Holds(a) => HoldsAtom(a, variables);
      }
    }
  }

  /** Some part, or every part, evaluates to true when the same holds of the terms. */
  lemma PartsAreTerms(terms: seq<Rule>, parts: seq<string>, variables: Variables)
    requires parts == Texts(terms)
    requires forall u | u in terms :: Matches(Text(u), variables) == Truth(u, variables)
    ensures (exists k | 0 <= k < |parts| :: Matches(parts[k], variables)) <==>
              (exists u | u in terms :: Truth(u, variables))
    ensures (forall k | 0 <= k < |parts| :: Matches(parts[k], variables)) <==>
              (forall u | u in terms :: Truth(u, variables))
  {
    assert forall k | 0 <= k < |terms| :: terms[k] in terms && parts[k] == Text(terms[k]);
    if u :| u in terms && Truth(u, variables) {
      var k :| 0 <= k < |terms| && terms[k] == u;
      assert Matches(parts[k], variables);
    }
    if u :| u in terms && !Truth(u, variables) {
      var k :| 0 <= k < |terms| && terms[k] == u;
      assert !Matches(parts[k], variables);
    }
  }

  lemma MatchesChain(s: string, parts: seq<string>, either: bool, variables: Variables)
    requires StripParentheses(s) == s && s != "" && |parts| > 1 && parts == SplitTopLevel(s, Connective(either))
    requires !either ==> |SplitTopLevel(s, "||")| == 1
    ensures Matches(s, variables) <==>
            if either then exists k | 0 <= k < |parts| :: Matches(parts[k], variables)
            else forall k | 0 <= k < |parts| :: Matches(parts[k], variables)
  {
  }

  lemma ChainFromTerms(t: Rule, either: bool, variables: Variables)
    requires Writable(t) && (if either then t.Or? else t.And?)
    requires forall u | u in Terms(t, either) :: Matches(Text(u), variables) == Truth(u, variables)
    ensures Matches(Text(t), variables) == Truth(t, variables)
  {
    var s, terms := Text(t), Terms(t, either);
    TextIsGood(t);
    StripText(t);
    SplitGivesTerms(t, either);
    TermsAreParts(t, either);
    TermsTruth(t, either, variables);
    if !either {
      SplitGivesTerms(t, true);
    }
    MatchesChain(s, Texts(terms), either, variables);
    PartsAreTerms(terms, Texts(terms), variables);
  }

  lemma {:induction false} ChainCorrect(t: Rule, either: bool, variables: Variables)
    requires Writable(t) && (if either then t.Or? else t.And?)
    ensures Matches(Text(t), variables) == Truth(t, variables)
    decreases Size(t), 0
  {
    var terms := Terms(t, either);
    TermsAreParts(t, either);
    forall u | u in terms
      ensures Matches(Text(u), variables) == Truth(u, variables)
    {
      EvaluatorCorrect(u, variables);
    }
    ChainFromTerms(t, either, variables);
  }

  // Two ways to write any tree.

  predicate GoodParts(t: Rule) {
    match t
    case Or(l, g, r) => GoodParts(l) && g.Blank() && GoodParts(r)
    case And(l, g, r) => GoodParts(l) && g.Blank() && GoodParts(r)
    case Not(w, e) => AllSpace(w) && GoodParts(e)
    case Bracketed(g, e) => g.Blank() && GoodParts(e)
    case _ => GoodAtom(t)
  }

  function Wrap(t: Rule, level: nat, inside: Gap): Rule {
    if Level(t) < level then Bracketed(inside, t) else t
  }

  /** Brackets added where precedence needs them. */
  function Minimal(t: Rule, inside: Gap): Rule {
    match t
    case Or(l, g, r) => Or(Minimal(l, inside), g, Minimal(r, inside))
    case And(l, g, r) => And(Wrap(Minimal(l, inside), 1, inside), g, Wrap(Minimal(r, inside), 1, inside))
    case Not(w, e) => Not(w, Wrap(Minimal(e, inside), 2, inside))
    case Bracketed(g, e) => Bracketed(g, Minimal(e, inside))
    case _ => t
  }

  /** Brackets added around every operand of a connective or a negation. */
  function Full(t: Rule, inside: Gap): Rule {
    match t
    case Or(l, g, r) => Or(Bracketed(inside, Full(l, inside)), g, Bracketed(inside, Full(r, inside)))
    case And(l, g, r) => And(Bracketed(inside, Full(l, inside)), g, Bracketed(inside, Full(r, inside)))
    case Not(w, e) => Not(w, Bracketed(inside, Full(e, inside)))
    case Bracketed(g, e) => Bracketed(g, Full(e, inside))
    case _ => t
  }

  lemma {:induction false} MinimalWritable(t: Rule, inside: Gap)
    requires inside.Blank()
    ensures Writable(Minimal(t, inside)) <==> GoodParts(t)
  {
    match t
    case Or(l, _, r) =>
      MinimalWritable(l, inside);
      MinimalWritable(r, inside);
    case And(l, _, r) =>
      MinimalWritable(l, inside);
      MinimalWritable(r, inside);
    case Not(_, e) => MinimalWritable(e, inside);
    case Bracketed(_, e) => MinimalWritable(e, inside);
    case _ =>
  }

  lemma {:induction false} FullWritable(t: Rule, inside: Gap)
    requires inside.Blank()
    ensures Writable(Full(t, inside)) <==> GoodParts(t)
  {
    match t
    case Or(l, _, r) =>
      FullWritable(l, inside);
      FullWritable(r, inside);
    case And(l, _, r) =>
      FullWritable(l, inside);
      FullWritable(r, inside);
    case Not(_, e) => FullWritable(e, inside);
    case Bracketed(_, e) => FullWritable(e, inside);
    case _ =>
  }

  /** Brackets do not change the meaning. */
  lemma {:induction false} SameTruth(t: Rule, inside: Gap, variables: Variables)
    ensures Truth(Minimal(t, inside), variables) == Truth(t, variables) == Truth(Full(t, inside), variables)
  {
    match t
    case Or(l, _, r) =>
      SameTruth(l, inside, variables);
      SameTruth(r, inside, variables);
    case And(l, _, r) =>
      SameTruth(l, inside, variables);
      SameTruth(r, inside, variables);
    case Not(_, e) => SameTruth(e, inside, variables);
    case Bracketed(_, e) => SameTruth(e, inside, variables);
    case _ =>
  }

  /** Every tree over good operands and white space evaluates to its truth value, with brackets added where precedence
      needs them or around every operand. */
  lemma AnyTreeEvaluates(t: Rule, inside: Gap, variables: Variables)
    requires GoodParts(t) && inside.Blank()
    ensures Matches(Text(Minimal(t, inside)), variables) == Truth(t, variables)
    ensures Matches(Text(Full(t, inside)), variables) == Truth(t, variables)
  {
    MinimalWritable(t, inside);
    FullWritable(t, inside);
    SameTruth(t, inside, variables);
    EvaluatorCorrect(Minimal(t, inside), variables);
    EvaluatorCorrect(Full(t, inside), variables);
  }

  lemma LoneMark(mark: string, op: string)
    requires mark == "\"" && IsOperator(op)
    ensures Pieces(mark, op, 0) == [mark] && SplitTopLevel(mark, op) == [mark]
  {
    assert mark[1..] == "" && [mark[0]] + "" == mark;
    TrimTight(mark);
  }

  lemma LoneMarkFails(mark: string, variables: Variables)
    requires mark == "\""
    ensures !Matches(mark, variables)
  {
    LoneMark(mark, "||");
    LoneMark(mark, "&&");
    TrimTight(mark);
    AtomText(mark, variables);
    assert Inner(mark) == "";
  }

  lemma SplitsBetweenMarks(s: string, mark: string)
    requires mark == "\"" && s == mark + "||" + mark
    ensures SplitTopLevel(s, "||") == [mark, mark]
  {
    LoneMark(mark, "||");
    assert s[1..] == "||" + mark && s[1..][2..] == mark;
    assert Pieces(s[1..], "||", 0) == [""] + [mark];
    assert [s[0]] + "" == mark;
    TrimTight(mark);
  }

  /** An operator in a quoted text splits it: a text that is not empty counts as empty. */
  lemma QuotedOperatorSplits(variables: Variables)
    ensures var t := Holds(Quoted("||", '"')); Truth(t, variables) && !Matches(Text(t), variables)
  {
    var mark := "\"";
    var s := mark + "||" + mark;
    assert Text(Holds(Quoted("||", '"'))) == s;
    SplitsBetweenMarks(s, mark);
    TrimTight(s);
    LoneMarkFails(mark, variables);
    MatchesChain(s, [mark, mark], true, variables);
  }

  /** A text of white space holds for no variables. */
  lemma BlankFails(s: string, variables: Variables)
    requires AllSpace(s)
    ensures !Matches(s, variables)
  {
    TrimLeftOfPadded(s, "");
    assert StripParentheses(s) == "";
  }
}
