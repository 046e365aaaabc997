/** Cleaning a cache key before it names an archive, and when cleaning it again changes nothing. */
module CacheKey {
  import opened Patterns
  import opened RuleText
  import opened Wrappers

  // The key as text.

  /** Every occurrence of the pattern, from the left, becomes the character. */
  function Replace(s: string, pattern: string, c: char): string
    requires pattern != ""
  {
    if s == "" then ""
    else if pattern <= s then [c] + Replace(s[|pattern|..], pattern, c)
    else [s[0]] + Replace(s[1..], pattern, c)
  }

  function Decoded(key: string): string {
    var slashes := Replace(Replace(key, "%2f", '/'), "%2F", '/');
    var dots := Replace(Replace(slashes, "%2e", '.'), "%2E", '.');
    Replace(dots, "\\", '/')
  }

  function SplitPath(s: string): (r: seq<string>)
    ensures r != []
  {
    if s == "" then [""]
    else if s[0] == '/' then [""] + SplitPath(s[1..])
    else Before([s[0]], SplitPath(s[1..]))
  }

  /** The components that are left: empty ones and `.` go, and `..` takes the one before it. */
  function Normal(parts: seq<string>): (r: seq<string>)
    ensures |r| <= |parts|
  {
    if parts == [] then []
    else
      var before, last := Normal(parts[..|parts| - 1]), parts[|parts| - 1];
      if last == "" || last == "." then before
      else if last == ".." then (if before == [] then [] else before[..|before| - 1])
      else before + [last]
  }

  /** The path without dots and empty components. Exactly two slashes in front stay, as section 4.13 of POSIX.1-2017
      Base Definitions has it; more become one. */
  function NormPath(path: string): string
    requires path != "" && path[0] == '/'
  {
    var parts := Normal(SplitPath(path));
    var slashes := if "//" <= path && !("///" <= path) then "//" else "/";
    slashes + (if parts == [] then "" else Join(parts, "/"))
  }

  /** The parts with white space off the end, the last one dropped when nothing is left of it. */
  function Stripped(parts: seq<string>): (r: seq<string>)
    ensures |r| <= |parts|
  {
    if parts == [] then []
    else
      var front, last := parts[..|parts| - 1], TrimRight(parts[|parts| - 1]);
      if last != "" then front + [last] else Stripped(front)
  }

  function Sanitize(key: string): Option<string> {
    if key == "" then Some("")
    else
      var cleaned := NormPath("/" + Decoded(key));
      var parts := Stripped(if cleaned == "/" then [] else SplitPath(cleaned[1..]));
      if parts == [] || Join(parts, "/") == "" then None else Some(Join(parts, "/"))
  }

  /** The cleaning as a loop that pops blank parts off the end. */
  method SanitizeCacheKey(key: string) returns (r: Option<string>)
    ensures r == Sanitize(key)
  {
    if key == "" {
      return Some("");
    }
    var cleaned := NormPath("/" + Decoded(key));
    var parts := if cleaned == "/" then [] else SplitPath(cleaned[1..]);
    ghost var all := parts;
    while parts != []
      invariant Stripped(parts) == Stripped(all)
      decreases |parts|
    {
      var last := TrimRight(parts[|parts| - 1]);
      if last != "" {
        assert Stripped(parts) == parts[..|parts| - 1] + [last];
        parts := parts[..|parts| - 1] + [last];
        var sanitized := Join(parts, "/");
        return if sanitized == "" then None else Some(sanitized);
      }
      parts := parts[..|parts| - 1];
    }
    return None;
  }

  // Texts without a pattern.

  predicate IsEscape(pattern: string) {
    pattern in {"%2f", "%2F", "%2e", "%2E", "\\"}
  }

  /** No escape is left. */
  ghost predicate Plain(s: string) {
    forall pattern | IsEscape(pattern) :: Lacks(s, pattern)
  }

  /** A text at the front of the result that does not hold the new character was at the front before. */
  lemma {:induction false} FrontKept(s: string, pattern: string, c: char, front: string)
    requires pattern != "" && c !in front && front <= Replace(s, pattern, c)
    ensures front <= s
    decreases |s|
  {
    if front != "" {
      var r := Replace(s, pattern, c);
      assert r[0] == front[0] && front[0] in front;
      assert !(pattern <= s);
      assert front[1..] <= r[1..] == Replace(s[1..], pattern, c);
      FrontKept(s[1..], pattern, c, front[1..]);
      assert front == [front[0]] + front[1..] && s == [s[0]] + s[1..];
    }
  }

  /** Replacing leaves no occurrence of its pattern and makes none of another without the new character. */
  lemma {:induction false} ReplaceLacks(s: string, pattern: string, c: char, other: string)
    requires pattern != "" && other != "" && c !in other && (other == pattern || Lacks(s, other))
    ensures Lacks(Replace(s, pattern, c), other)
    decreases |s|
  {
    var r := Replace(s, pattern, c);
    if s == "" {
    } else if pattern <= s {
      if other != pattern {
        LacksDrop(s, other, |pattern|);
      }
      ReplaceLacks(s[|pattern|..], pattern, c, other);
      assert r[1..] == Replace(s[|pattern|..], pattern, c);
      assert other[0] in other;
      LacksMore(r, other);
    } else {
      if other != pattern {
        LacksTail(s, other);
        assert s[0..] == s;
      }
      ReplaceLacks(s[1..], pattern, c, other);
      assert r[1..] == Replace(s[1..], pattern, c);
      if other <= r {
        FrontKept(s, pattern, c, other);
      }
      LacksMore(r, other);
    }
  }

  lemma {:induction false} ReplaceNothing(s: string, pattern: string, c: char)
    requires pattern != "" && Lacks(s, pattern)
    ensures Replace(s, pattern, c) == s
    decreases |s|
  {
    if s != "" {
      assert s[0..] == s;
      LacksTail(s, pattern);
      ReplaceNothing(s[1..], pattern, c);
    }
  }

  lemma DecodedIsPlain(key: string)
    ensures Plain(Decoded(key))
  {
    var a := Replace(key, "%2f", '/');
    var b := Replace(a, "%2F", '/');
    var c := Replace(b, "%2e", '.');
    var d := Replace(c, "%2E", '.');
    ReplaceLacks(key, "%2f", '/', "%2f");
    ReplaceLacks(a, "%2F", '/', "%2f");
    ReplaceLacks(a, "%2F", '/', "%2F");
    forall pattern | pattern in {"%2f", "%2F", "%2e"}
      ensures Lacks(c, pattern)
    {
      ReplaceLacks(b, "%2e", '.', pattern);
    }
    forall pattern | pattern in {"%2f", "%2F", "%2e", "%2E"}
      ensures Lacks(d, pattern)
    {
      ReplaceLacks(c, "%2E", '.', pattern);
    }
    forall pattern | IsEscape(pattern)
      ensures Lacks(Decoded(key), pattern)
    {
      ReplaceLacks(d, "\\", '/', pattern);
    }
  }

  lemma PlainDecodesToItself(s: string)
    requires Plain(s)
    ensures Decoded(s) == s
  {
    assert IsEscape("%2f") && IsEscape("%2F") && IsEscape("%2e") && IsEscape("%2E") && IsEscape("\\");
    ReplaceNothing(s, "%2f", '/');
    ReplaceNothing(s, "%2F", '/');
    ReplaceNothing(s, "%2e", '.');
    ReplaceNothing(s, "%2E", '.');
    ReplaceNothing(s, "\\", '/');
  }

  // Parts.

  predicate NoSlash(part: string) {
    forall c | c in part :: c != '/'
  }

  /** A part that normalisation keeps. */
  predicate Kept(part: string) {
    NoSlash(part) && part != "" && part != "." && part != ".."
  }

  predicate AllKept(parts: seq<string>) {
    forall part | part in parts :: Kept(part)
  }

  /** A part free of escapes and slashes. */
  ghost predicate Clean(part: string) {
    NoSlash(part) && Plain(part)
  }

  ghost predicate AllClean(parts: seq<string>) {
    forall part | part in parts :: Clean(part)
  }

  lemma EmptyIsPlain()
    ensures Plain("")
  {
  }

  lemma FrontIsPlain(s: string, front: string)
    requires Plain(s) && front <= s
    ensures Plain(front)
  {
    forall pattern, i: nat | IsEscape(pattern) && i <= |front|
      ensures !(pattern <= front[i..])
    {
      assert front[i..] <= s[i..];
    }
  }

  lemma {:induction false} SplitIsClean(s: string)
    requires Plain(s)
    ensures AllClean(SplitPath(s))
    ensures SplitPath(s)[0] <= s
    decreases |s|
  {
    if s == "" {
      assert AllClean([""]) by {
        EmptyIsPlain();
      }
    } else {
      forall pattern | IsEscape(pattern)
        ensures Lacks(s[1..], pattern)
      {
        LacksTail(s, pattern);
      }
      SplitIsClean(s[1..]);
      var rest := SplitPath(s[1..]);
      if s[0] == '/' {
        EmptyIsPlain();
      } else {
        var first := [s[0]] + rest[0];
        assert s == [s[0]] + s[1..];
        assert first <= s;
        FrontIsPlain(s, first);
        assert rest[0] in rest;
        assert forall part | part in rest[1..] :: part in rest;
      }
    }
  }

  lemma {:induction false} TrimRightIsFront(s: string)
    ensures TrimRight(s) <= s && TrimRight(TrimRight(s)) == TrimRight(s)
    decreases |s|
  {
    if s != "" && IsSpace(s[|s| - 1]) {
      TrimRightIsFront(s[..|s| - 1]);
    }
  }

  lemma {:induction false} NormalFrom(parts: seq<string>)
    ensures forall part | part in Normal(parts) :: part in parts && part != "" && part != "." && part != ".."
    decreases |parts|
  {
    if parts != [] {
      var n := |parts| - 1;
      NormalFrom(parts[..n]);
      assert parts[n] in parts;
      forall part | part in Normal(parts)
        ensures part in parts && part != "" && part != "." && part != ".."
      {
        assert part in Normal(parts[..n]) || part == parts[n];
        assert part in parts[..n] ==> part in parts;
      }
    }
  }

  /** Empty parts in front do not matter. */
  lemma {:induction false} NormalSkipsEmpty(parts: seq<string>)
    ensures Normal([""] + parts) == Normal(parts)
    decreases |parts|
  {
    var all := [""] + parts;
    if parts == [] {
      assert all[..0] == [];
    } else {
      assert all[..|all| - 1] == [""] + parts[..|parts| - 1];
      NormalSkipsEmpty(parts[..|parts| - 1]);
    }
  }

  lemma {:induction false} NormalOfKept(parts: seq<string>)
    requires AllKept(parts)
    ensures Normal(parts) == parts
    decreases |parts|
  {
    if parts != [] {
      NormalOfKept(parts[..|parts| - 1]);
      assert parts[|parts| - 1] in parts;
    }
  }

  /** What the end of the cleaning leaves: the front as it was, and a last part with no white space at its end. */
  lemma {:induction false} StrippedShape(parts: seq<string>)
    ensures var r := Stripped(parts);
            r != [] ==>
              && r[..|r| - 1] == parts[..|r| - 1]
              && r[|r| - 1] == TrimRight(parts[|r| - 1]) != ""
    decreases |parts|
  {
    if parts != [] && TrimRight(parts[|parts| - 1]) == "" {
      StrippedShape(parts[..|parts| - 1]);
    }
  }

  lemma {:induction false} StrippedAfterEmpty(parts: seq<string>)
    ensures Stripped([""] + parts) == if Stripped(parts) == [] then [] else [""] + Stripped(parts)
    decreases |parts|
  {
    var all := [""] + parts;
    if parts == [] {
      assert all[..0] == [];
    } else {
      assert all[..|all| - 1] == [""] + parts[..|parts| - 1];
      StrippedAfterEmpty(parts[..|parts| - 1]);
    }
  }

  lemma {:induction false} SplitOfPart(part: string, rest: string)
    requires NoSlash(part)
    ensures SplitPath(part) == [part]
    ensures SplitPath(part + "/" + rest) == [part] + SplitPath(rest)
    decreases |part|
  {
    if part == "" {
      assert part + "/" + rest == "/" + rest;
    } else {
      assert part[0] in part && forall c | c in part[1..] :: c in part;
      assert (part + "/" + rest)[1..] == part[1..] + "/" + rest;
      SplitOfPart(part[1..], rest);
      assert part == [part[0]] + part[1..];
    }
  }

  lemma {:induction false} SplitJoin(parts: seq<string>)
    requires parts != [] && forall part | part in parts :: NoSlash(part)
    ensures SplitPath(Join(parts, "/")) == parts
    decreases |parts|
  {
    if |parts| == 1 {
      SplitOfPart(parts[0], "");
    } else {
      SplitJoin(parts[1..]);
      SplitOfPart(parts[0], Join(parts[1..], "/"));
      assert parts == [parts[0]] + parts[1..];
    }
  }

  lemma FrontBeforeSlash(a: string, b: string, pattern: string)
    requires '/' !in pattern && pattern <= a + "/" + b
    ensures pattern <= a
  {
    assert (a + "/" + b)[|a|] == '/';
    assert forall k | 0 <= k < |pattern| :: pattern[k] in pattern;
  }

  lemma {:induction false} LacksAcrossSlash(a: string, b: string, pattern: string)
    requires pattern != "" && '/' !in pattern && Lacks(a, pattern) && Lacks(b, pattern)
    ensures Lacks(a + "/" + b, pattern)
    decreases |a|
  {
    var s := a + "/" + b;
    if a == "" {
      assert s[1..] == b;
      assert pattern[0] in pattern;
      LacksMore(s, pattern);
    } else {
      LacksTail(a, pattern);
      LacksAcrossSlash(a[1..], b, pattern);
      assert s[1..] == a[1..] + "/" + b;
      assert a[0..] == a;
      if pattern <= s {
        FrontBeforeSlash(a, b, pattern);
      }
      LacksMore(s, pattern);
    }
  }

  /** No escape spans a slash. */
  lemma {:induction false} JoinIsPlain(parts: seq<string>)
    requires parts != [] && forall part | part in parts :: Plain(part)
    ensures Plain(Join(parts, "/"))
    decreases |parts|
  {
    if |parts| > 1 {
      JoinIsPlain(parts[1..]);
      assert parts[0] in parts && Join(parts, "/") == parts[0] + "/" + Join(parts[1..], "/");
      forall pattern | IsEscape(pattern)
        ensures Lacks(Join(parts, "/"), pattern)
      {
        LacksAcrossSlash(parts[0], Join(parts[1..], "/"), pattern);
      }
    }
  }

  // The cleaned key.

  /** The path starts with exactly one slash: the double slash that stays. */
  predicate OneSlash(s: string) {
    "/" <= s && !("//" <= s)
  }

  function Lead(lead: bool): string {
    if lead then "/" else ""
  }

  /** The key that is left of the components. */
  function Outcome(lead: bool, parts: seq<string>): Option<string> {
    var kept := Stripped(parts);
    if kept == [] then None else Some(Lead(lead) + Join(kept, "/"))
  }

  /** What splitting the cleaned path at its slashes gives. */
  function Segments(lead: bool, parts: seq<string>): seq<string> {
    if lead then [""] + (if parts == [] then [""] else parts) else parts
  }

  lemma SplitAfterLead(lead: bool, rest: string)
    ensures var cleaned := Lead(lead) + "/" + rest;
            && cleaned[0] == '/'
            && (cleaned == "/" <==> !lead && rest == "")
            && SplitPath(cleaned[1..]) == if lead then [""] + SplitPath(rest) else SplitPath(rest)
  {
    if lead {
      assert (Lead(lead) + "/" + rest)[1..] == "/" + rest;
      assert ("/" + rest)[1..] == rest;
    } else {
      assert (Lead(lead) + "/" + rest)[1..] == rest;
    }
  }

  lemma {:induction false} JoinNotEmpty(parts: seq<string>)
    requires parts != [] && parts[|parts| - 1] != ""
    ensures Join(parts, "/") != ""
    decreases |parts|
  {
    if |parts| > 1 {
      JoinNotEmpty(parts[1..]);
    }
  }

  lemma SegmentsOfPath(lead: bool, parts: seq<string>)
    requires AllKept(parts)
    ensures var cleaned := Lead(lead) + "/" + (if parts == [] then "" else Join(parts, "/"));
            && cleaned[0] == '/'
            && (if cleaned == "/" then [] else SplitPath(cleaned[1..])) == Segments(lead, parts)
  {
    if parts != [] {
      SplitJoin(parts);
      assert parts[|parts| - 1] in parts;
      JoinNotEmpty(parts);
    }
    SplitAfterLead(lead, if parts == [] then "" else Join(parts, "/"));
  }

  lemma LeadJoin(lead: bool, kept: seq<string>)
    requires kept != [] && kept[|kept| - 1] != ""
    ensures Join(if lead then [""] + kept else kept, "/") == Lead(lead) + Join(kept, "/") != ""
  {
    JoinNotEmpty(kept);
    if lead {
      assert ([""] + kept)[1..] == kept;
      assert Join([""] + kept, "/") == "" + "/" + Join(kept, "/") == "/" + Join(kept, "/");
    } else {
      assert Lead(lead) + Join(kept, "/") == Join(kept, "/");
    }
  }

  lemma SegmentsOutcome(lead: bool, parts: seq<string>)
    ensures var kept := Stripped(Segments(lead, parts));
            Outcome(lead, parts) == if kept == [] || Join(kept, "/") == "" then None else Some(Join(kept, "/"))
  {
    assert [""][..0] == [] && Stripped([""]) == [];
    StrippedAfterEmpty(if parts == [] then [""] else parts);
    if Stripped(parts) != [] {
      StrippedShape(parts);
      LeadJoin(lead, Stripped(parts));
    }
  }

  lemma SlashesInFront(s: string)
    ensures (if "//" <= "/" + s && !("///" <= "/" + s) then "//" else "/") == Lead(OneSlash(s)) + "/"
  {
    var path := "/" + s;
    assert path[1..] == s;
    assert "//" <= path <==> |path| >= 2 && path[1] == '/';
    assert "///" <= path <==> |path| >= 3 && path[1] == '/' && path[2] == '/';
    assert "/" <= s <==> |s| >= 1 && s[0] == '/';
    assert "//" <= s <==> |s| >= 2 && s[0] == '/' && s[1] == '/';
  }

  lemma {:induction false} SplitHasNoSlash(s: string)
    ensures forall part | part in SplitPath(s) :: NoSlash(part)
    decreases |s|
  {
    if s != "" {
      SplitHasNoSlash(s[1..]);
      var rest := SplitPath(s[1..]);
      assert rest[0] in rest && forall part | part in rest[1..] :: part in rest;
    }
  }

  lemma NormalIsKept(parts: seq<string>)
    requires forall part | part in parts :: NoSlash(part)
    ensures AllKept(Normal(parts))
  {
    NormalFrom(parts);
  }

  lemma NormalOfSplit(s: string)
    ensures AllKept(Normal(SplitPath(s)))
  {
    SplitHasNoSlash(s);
    NormalIsKept(SplitPath(s));
  }

  /** The cleaning without the detour over the path text. */
  lemma SanitizeMeaning(key: string)
    requires key != ""
    ensures var s := Decoded(key); Sanitize(key) == Outcome(OneSlash(s), Normal(SplitPath(s)))
  {
    var s := Decoded(key);
    NormalOfSplit(s);
    var parts := Normal(SplitPath(s));
    assert ("/" + s)[1..] == s;
    NormalSkipsEmpty(SplitPath(s));
    assert SplitPath("/" + s) == [""] + SplitPath(s);
    SlashesInFront(s);
    SegmentsOfPath(OneSlash(s), parts);
    SegmentsOutcome(OneSlash(s), parts);
  }

  /** The parts of a cleaned key: kept ones, but the last may have become `.` or `..` when its white space went. */
  ghost predicate CleanParts(parts: seq<string>) {
    && parts != []
    && AllClean(parts)
    && AllKept(parts[..|parts| - 1])
    && parts[|parts| - 1] != "" && TrimRight(parts[|parts| - 1]) == parts[|parts| - 1]
  }

  lemma FrontHasNoSlash(s: string, front: string)
    requires NoSlash(s) && front <= s
    ensures NoSlash(front)
  {
    assert forall c | c in front :: c in s;
  }

  lemma StrippedLast(all: seq<string>)
    requires AllClean(all) && AllKept(all) && Stripped(all) != []
    ensures var r := Stripped(all); Clean(r[|r| - 1])
  {
    var parts := Stripped(all);
    var n := |parts| - 1;
    StrippedShape(all);
    TrimRightIsFront(all[n]);
    assert Clean(all[n]);
    FrontIsPlain(all[n], parts[n]);
    FrontHasNoSlash(all[n], parts[n]);
  }

  lemma StrippedIsClean(all: seq<string>)
    requires AllClean(all) && AllKept(all) && Stripped(all) != []
    ensures CleanParts(Stripped(all))
  {
    var parts := Stripped(all);
    var n := |parts| - 1;
    StrippedShape(all);
    StrippedLast(all);
    TrimRightIsFront(all[n]);
    forall part | part in parts
      ensures Clean(part)
    {
      assert part in all[..n] || part == parts[n];
    }
  }

  /** A key that could be cleaned is clean parts, after at most one slash. */
  lemma CleanedKey(key: string) returns (lead: bool, parts: seq<string>)
    requires Sanitize(key).Some? && key != ""
    ensures CleanParts(parts) && Sanitize(key) == Some(Lead(lead) + Join(parts, "/"))
    ensures lead == OneSlash(Decoded(key))
  {
    var s := Decoded(key);
    SanitizeMeaning(key);
    DecodedIsPlain(key);
    SplitIsClean(s);
    NormalFrom(SplitPath(s));
    NormalOfSplit(s);
    lead, parts := OneSlash(s), Stripped(Normal(SplitPath(s)));
    StrippedIsClean(Normal(SplitPath(s)));
  }

  lemma {:induction false} NormalOfLast(front: seq<string>, last: string)
    requires AllKept(front)
    ensures Normal(front + [last]) ==
            if last == "" || last == "." then front
            else if last == ".." then (if front == [] then [] else front[..|front| - 1])
            else front + [last]
  {
    assert (front + [last])[..|front|] == front;
    NormalOfKept(front);
  }

  lemma SlashIsPlain(text: string)
    requires Plain(text)
    ensures Plain("/" + text)
  {
    EmptyIsPlain();
    forall pattern | IsEscape(pattern)
      ensures Lacks("/" + text, pattern)
    {
      LacksAcrossSlash("", text, pattern);
      assert "" + "/" + text == "/" + text;
    }
  }

  /** No slash and no empty part in front. */
  lemma TextStart(parts: seq<string>)
    requires CleanParts(parts)
    ensures var text := Join(parts, "/"); text != "" && text[0] != '/'
  {
    assert parts[0] in parts;
    if |parts| > 1 {
      assert parts[0] in parts[..|parts| - 1];
    }
    assert parts[0] != "" && parts[0][0] in parts[0];
  }

  /** Cleaning clean parts again. */
  lemma CleanAgain(lead: bool, parts: seq<string>)
    requires CleanParts(parts)
    ensures var r := Lead(lead) + Join(parts, "/");
            && SplitPath(r) == (if lead then [""] else []) + parts
            && Sanitize(r) == Outcome(lead, Normal(parts))
  {
    var text := Join(parts, "/");
    JoinIsPlain(parts);
    SplitJoin(parts);
    TextStart(parts);
    if lead {
      assert Lead(lead) + text == "/" + text && ("/" + text)[1..] == text;
      SlashIsPlain(text);
      PlainDecodesToItself("/" + text);
      NormalSkipsEmpty(parts);
      SanitizeMeaning("/" + text);
    } else {
      assert Lead(lead) + text == text;
      PlainDecodesToItself(text);
      SanitizeMeaning(text);
    }
  }

  lemma PartsInFront(lead: bool, parts: seq<string>)
    requires CleanParts(parts)
    ensures var segments := (if lead then [""] else []) + parts;
            var last := |segments| - 1;
            && segments[last] == parts[|parts| - 1]
            && (forall k | 0 <= k < last :: segments[k] != "." && segments[k] != ".." && (segments[k] == "" ==> k == 0))
  {
    var segments := (if lead then [""] else []) + parts;
    forall k | 0 <= k < |segments| - 1
      ensures segments[k] != "." && segments[k] != ".." && (segments[k] == "" ==> k == 0)
    {
      if !(lead && k == 0) {
        var m := if lead then k - 1 else k;
        assert segments[k] == parts[..|parts| - 1][m];
        assert segments[k] in parts[..|parts| - 1];
      }
    }
  }

  lemma NormalOfCleanParts(parts: seq<string>)
    requires CleanParts(parts)
    ensures AllKept(Normal(parts))
    ensures var last := parts[|parts| - 1];
            if last == "." || last == ".." then |Normal(parts)| < |parts| else Normal(parts) == parts
  {
    var front, last := parts[..|parts| - 1], parts[|parts| - 1];
    assert parts == front + [last];
    NormalOfLast(front, last);
    NormalIsKept(parts);
  }

  lemma StrippedAgain(parts: seq<string>)
    requires CleanParts(parts)
    ensures Stripped(parts) == parts
  {
  }

  lemma StrippedHasNoSlash(parts: seq<string>)
    requires AllKept(parts)
    ensures forall part | part in Stripped(parts) :: NoSlash(part)
  {
    var kept := Stripped(parts);
    if kept != [] {
      StrippedShape(parts);
      var n := |kept| - 1;
      TrimRightIsFront(parts[n]);
      assert Kept(parts[n]);
      FrontHasNoSlash(parts[n], kept[n]);
      forall part | part in kept
        ensures NoSlash(part)
      {
        assert part == kept[n] || part in parts[..n];
        assert part in parts[..n] ==> Kept(part);
      }
    }
  }

  lemma DifferentAfterLead(lead: bool, a: string, b: string)
    requires a != b
    ensures Lead(lead) + a != Lead(lead) + b
  {
    assert (Lead(lead) + a)[|Lead(lead)|..] == a && (Lead(lead) + b)[|Lead(lead)|..] == b;
  }

  /** Fewer parts make a different key. */
  lemma OutcomeShorter(lead: bool, fewer: seq<string>, parts: seq<string>)
    requires |fewer| < |parts| && AllKept(fewer) && CleanParts(parts)
    ensures Outcome(lead, fewer) != Some(Lead(lead) + Join(parts, "/"))
  {
    var kept := Stripped(fewer);
    if kept != [] {
      StrippedHasNoSlash(fewer);
      SplitJoin(kept);
      SplitJoin(parts);
      DifferentAfterLead(lead, Join(kept, "/"), Join(parts, "/"));
    }
  }

  lemma AgainIff(lead: bool, parts: seq<string>)
    requires CleanParts(parts)
    ensures Outcome(lead, Normal(parts)) == Some(Lead(lead) + Join(parts, "/")) <==>
            parts[|parts| - 1] != "." && parts[|parts| - 1] != ".."
  {
    var last := parts[|parts| - 1];
    NormalOfCleanParts(parts);
    if last == "." || last == ".." {
      OutcomeShorter(lead, Normal(parts), parts);
    } else {
      StrippedAgain(parts);
    }
  }

  /** Cleaning a cleaned key changes nothing exactly when its last segment is neither `.` nor `..`. No other segment is,
      none is empty but perhaps the first, and so at most one slash is kept in front. */
  lemma SanitizeIdempotentIff(key: string)
    requires Sanitize(key).Some? && key != ""
    ensures var r := Sanitize(key).value;
            var segments := SplitPath(r);
            var last := |segments| - 1;
            && (Sanitize(r) == Some(r) <==> segments[last] != "." && segments[last] != "..")
            && (forall k | 0 <= k < last :: segments[k] != "." && segments[k] != ".." && (segments[k] == "" ==> k == 0))
            && segments[last] != ""
            && !("//" <= r)
  {
    var lead, parts := CleanedKey(key);
    CleanAgain(lead, parts);
    AgainIff(lead, parts);
    TextStart(parts);
    PartsInFront(lead, parts);
  }

  lemma NoEscapeCharacter(s: string)
    requires forall c | c in s :: c != '%' && c != '\\'
    ensures Plain(s)
  {
    forall pattern, i: nat | IsEscape(pattern) && i <= |s|
      ensures !(pattern <= s[i..])
    {
      if i < |s| {
        assert s[i..][0] == s[i] && s[i] in s;
      }
      assert pattern[0] == '%' || pattern[0] == '\\';
    }
  }

  lemma TwoParts(a: string, b: string)
    requires a != "" && NoSlash(a) && NoSlash(b) && forall c | c in a + "/" + b :: c != '%' && c != '\\'
    ensures Sanitize(a + "/" + b) == Outcome(false, Normal([a, b]))
  {
    var s := a + "/" + b;
    NoEscapeCharacter(s);
    PlainDecodesToItself(s);
    assert [a, b][1..] == [b];
    assert Join([a, b], "/") == a + "/" + Join([b], "/") == s;
    SplitJoin([a, b]);
    assert s[0] == a[0] && a[0] in a;
    SanitizeMeaning(s);
  }

  lemma EndsStripped(a: string, b: string, c: string)
    requires c != "" && !IsSpace(c[|c| - 1]) && (b == c || b == c + " ")
    ensures Outcome(false, [a, b]) == Some(a + "/" + c) && Outcome(false, [b]) == Some(c)
  {
    if b == c + " " {
      assert b[..|b| - 1] == c;
    }
    assert TrimRight(b) == c;
    assert [a, b][..1] == [a] && [b][..0] == [];
    assert Stripped([a, b]) == [a, c] && Stripped([b]) == [c];
    assert [a, c][1..] == [c] && Join([c], "/") == c;
    assert Join([a, c], "/") == a + "/" + Join([c], "/");
    assert Lead(false) + (a + "/" + c) == a + "/" + c && Lead(false) + c == c;
  }

  /** A part that cleaning leaves as it is. */
  predicate Lasting(a: string) {
    Kept(a) && !IsSpace(a[|a| - 1]) && forall c | c in a :: c != '%' && c != '\\'
  }

  lemma DotCovered(a: string)
    requires Lasting(a)
    ensures Sanitize(a + "/" + ". ") == Some(a + "/" + ".")
  {
    assert forall c | c in a + "/" + ". " :: c in a || c in "/. ";
    TwoParts(a, ". ");
    assert [a] + [". "] == [a, ". "];
    NormalOfLast([a], ". ");
    EndsStripped(a, ". ", ".");
  }

  /** White space behind a dot: cleaning the cleaned key takes the dot away. */
  lemma DotUncovered(a: string)
    requires Lasting(a)
    ensures Sanitize(a + "/" + ". ") == Some(a + "/" + ".") && Sanitize(a + "/" + ".") == Some(a)
  {
    DotCovered(a);
    assert forall c | c in a + "/" + "." :: c in a || c in "/.";
    TwoParts(a, ".");
    assert [a] + ["."] == [a, "."];
    NormalOfLast([a], ".");
    EndsStripped("", a, a);
  }
}
