/** The evaluator of rule expressions. */
module RuleEval {
  import opened Wrappers
  import opened RuleText

  type Variables = map<string, string>

  /** The offset of the first occurrence. */
  function Find(s: string, op: string): (r: Option<nat>)
    requires op != ""
    ensures r.Some? ==> r.value + |op| <= |s|
    decreases |s|
  {
    if |s| < |op| then None
    else if op <= s then Some(0)
    else
      match Find(s[1..], op)
      case None => None
      case Some(k) => Some(k + 1)
  }

  /** All but the first and the last character, as a slice that a single character makes empty. */
  function Inner(s: string): string
    requires s != ""
  {
    if |s| == 1 then "" else s[1..|s| - 1]
  }

  predicate IsBrace(c: char) {
    c == '{' || c == '}'
  }

  function StripBraces(s: string): string
    decreases |s|
  {
    if s == "" then s
    else if IsBrace(s[0]) then StripBraces(s[1..])
    else if IsBrace(s[|s| - 1]) then StripBraces(s[..|s| - 1])
    else s
  }

  function Value(text: string, variables: Variables): string {
    var v := Trim(text);
    if v != "" && ((v[0] == '"' && v[|v| - 1] == '"') || (v[0] == '\'' && v[|v| - 1] == '\'')) then Inner(v)
    else if v != "" && v[0] == '$' then
      var name := StripBraces(v[1..]);
      if name in variables then variables[name] else ""
    else if v == "null" then ""
    else v
  }

  /** Evaluation of any text ends: every recursive call is on a strictly shorter one. */
  function Matches(expression: string, variables: Variables): bool
    decreases |expression|, 1
  {
    var s := StripParentheses(expression);
    if s == "" then false
    else
      var orTerms := SplitTopLevel(s, "||");
      PiecesShorter(s, "||", 0);
      PiecesShorter(s, "&&", 0);
      if |orTerms| > 1 then exists k | 0 <= k < |orTerms| :: Matches(orTerms[k], variables)
      else
        var andTerms := SplitTopLevel(s, "&&");
        if |andTerms| > 1 then forall k | 0 <= k < |andTerms| :: Matches(andTerms[k], variables)
        else AtomMatches(s, variables)
  }

  function AtomMatches(expression: string, variables: Variables): bool
    decreases |expression|, 0
  {
    var s := Trim(expression);
    if s != "" && s[0] == '!' then !Matches(Trim(s[1..]), variables)
    else
      match Find(s, "==")
      case Some(k) => Value(s[..k], variables) == Value(s[k + 2..], variables)
      case None =>
        match Find(s, "!=")
        case Some(k) => Value(s[..k], variables) != Value(s[k + 2..], variables)
        case None => Value(s, variables) != ""
  }
}
