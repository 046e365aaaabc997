/** What a cache key means: its escapes one by one, and its path part by part. */
module KeyText {
  import opened CacheKey
  import opened RuleText

  // Escapes.

  /** An escape, or a character that begins none. */
  predicate IsPiece(t: string) {
    t in {"%2f", "%2F", "%2e", "%2E", "\\"} || (|t| == 1 && t[0] != '%' && t[0] != '\\')
  }

  predicate ArePieces(ts: seq<string>) {
    forall k | 0 <= k < |ts| :: IsPiece(ts[k])
  }

  function Text(ts: seq<string>): string {
    if ts == [] then "" else ts[0] + Text(ts[1..])
  }

  /** The character a piece stands for. */
  function Meant(t: string): string {
    if t == "%2f" || t == "%2F" || t == "\\" then "/"
    else if t == "%2e" || t == "%2E" then "."
    else t
  }

  function AllMeant(ts: seq<string>): seq<string> {
    seq(|ts|, k requires 0 <= k < |ts| => Meant(ts[k]))
  }

  function Swap(t: string, pattern: string, c: char): string {
    if t == pattern then [c] else t
  }

  function Instead(ts: seq<string>, pattern: string, c: char): seq<string> {
    seq(|ts|, k requires 0 <= k < |ts| => Swap(ts[k], pattern, c))
  }

  lemma EscapeShape(t: string)
    requires IsEscape(t)
    ensures t[0] == (if |t| == 3 then '%' else '\\') && (|t| == 1 || |t| == 3)
    ensures |t| == 3 ==> t[1] == '2' && t[2] in {'f', 'F', 'e', 'E'}
  {
  }

  lemma ReplaceSkipsOne(first: char, rest: string, pattern: string, c: char)
    requires pattern != "" && !(pattern <= [first] + rest)
    ensures Replace([first] + rest, pattern, c) == [first] + Replace(rest, pattern, c)
  {
    assert ([first] + rest)[1..] == rest;
  }

  lemma ReplaceSkipsThree(t: string, rest: string, pattern: string, c: char)
    requires |t| == 3 && pattern != "" && pattern[0] != t[1] && pattern[0] != t[2] && !(pattern <= t + rest)
    ensures Replace(t + rest, pattern, c) == t + Replace(rest, pattern, c)
  {
    var end := [t[2]] + rest;
    var back := [t[1]] + end;
    assert t + rest == [t[0]] + back && t == [t[0]] + ([t[1]] + [t[2]]);
    ReplaceSkipsOne(t[0], back, pattern, c);
    ReplaceSkipsOne(t[1], end, pattern, c);
    ReplaceSkipsOne(t[2], rest, pattern, c);
  }

  /** No other escape and no plain character begins an occurrence. */
  lemma ReplaceSkips(t: string, rest: string, pattern: string, c: char)
    requires IsPiece(t) && IsEscape(pattern) && t != pattern
    ensures Replace(t + rest, pattern, c) == t + Replace(rest, pattern, c)
  {
    EscapeShape(pattern);
    if |t| == 1 {
      assert t == [t[0]] && (t + rest)[0] == t[0];
      ReplaceSkipsOne(t[0], rest, pattern, c);
    } else {
      EscapeShape(t);
      assert (t + rest)[..3] == t;
      ReplaceSkipsThree(t, rest, pattern, c);
    }
  }

  lemma {:induction false} ReplaceEach(ts: seq<string>, pattern: string, c: char)
    requires ArePieces(ts) && IsEscape(pattern)
    ensures Replace(Text(ts), pattern, c) == Text(Instead(ts, pattern, c))
    decreases |ts|
  {
    if ts != [] {
      var rest := Text(ts[1..]);
      ReplaceEach(ts[1..], pattern, c);
      assert IsPiece(ts[0]) && ArePieces(ts[1..]);
      assert Instead(ts, pattern, c)[1..] == Instead(ts[1..], pattern, c);
      if ts[0] == pattern {
        assert (pattern + rest)[|pattern|..] == rest;
      } else {
        ReplaceSkips(ts[0], rest, pattern, c);
      }
    }
  }

  lemma SwapKeepsPiece(t: string, pattern: string, c: char)
    requires IsPiece(t) && (c == '/' || c == '.')
    ensures IsPiece(Swap(t, pattern, c))
  {
  }

  lemma InsteadArePieces(ts: seq<string>, pattern: string, c: char)
    requires ArePieces(ts) && IsEscape(pattern) && (c == '/' || c == '.')
    ensures ArePieces(Instead(ts, pattern, c)) && Replace(Text(ts), pattern, c) == Text(Instead(ts, pattern, c))
  {
    ReplaceEach(ts, pattern, c);
    forall k | 0 <= k < |ts|
      ensures IsPiece(Instead(ts, pattern, c)[k])
    {
      SwapKeepsPiece(ts[k], pattern, c);
    }
  }

  lemma MeantBySwaps(t: string)
    ensures Swap(Swap(Swap(Swap(Swap(t, "%2f", '/'), "%2F", '/'), "%2e", '.'), "%2E", '.'), "\\", '/') == Meant(t)
  {
  }

  /** A key is decoded escape by escape: `%2f` and the backslash are slashes, `%2e` is a dot, in either case of the
      letter, and every other character is itself. */
  lemma DecodedEach(ts: seq<string>)
    requires ArePieces(ts)
    ensures Decoded(Text(ts)) == Text(AllMeant(ts))
  {
    var a := Instead(ts, "%2f", '/');
    var b := Instead(a, "%2F", '/');
    var c := Instead(b, "%2e", '.');
    var d := Instead(c, "%2E", '.');
    InsteadArePieces(ts, "%2f", '/');
    InsteadArePieces(a, "%2F", '/');
    InsteadArePieces(b, "%2e", '.');
    InsteadArePieces(c, "%2E", '.');
    InsteadArePieces(d, "\\", '/');
    forall k | 0 <= k < |ts|
      ensures Instead(d, "\\", '/')[k] == AllMeant(ts)[k]
    {
      MeantBySwaps(ts[k]);
    }
    assert Instead(d, "\\", '/') == AllMeant(ts);
  }

  // Parts.

  lemma {:induction false} NormalExtends(a: seq<string>, b: seq<string>, more: seq<string>)
    requires Normal(a) == Normal(b)
    ensures Normal(a + more) == Normal(b + more)
    decreases |more|
  {
    if more == [] {
      assert a + [] == a && b + [] == b;
    } else {
      var n := |more| - 1;
      NormalExtends(a, b, more[..n]);
      assert (a + more)[..|a + more| - 1] == a + more[..n] && (b + more)[..|b + more| - 1] == b + more[..n];
    }
  }

  lemma NormalOfOneMore(a: seq<string>, last: string)
    ensures Normal(a + [last]) ==
            if last == "" || last == "." then Normal(a)
            else if last == ".." then (if Normal(a) == [] then [] else Normal(a)[..|Normal(a)| - 1])
            else Normal(a) + [last]
  {
    assert (a + [last])[..|a|] == a;
  }

  lemma {:induction false} NormalStays(a: seq<string>)
    requires forall kept | kept in a :: kept != "" && kept != "." && kept != ".."
    ensures Normal(a) == a
    decreases |a|
  {
    if a != [] {
      var n := |a| - 1;
      assert a[n] in a && forall kept | kept in a[..n] :: kept in a;
      NormalStays(a[..n]);
      assert a == a[..n] + [a[n]];
    }
  }

  /** Parts are normalised by taking away, wherever they stand, empty parts and dots, and two dots together with the
      part
      before them, or alone in front; what is left holds none of them, and stays as it is. */
  lemma NormalLaws(a: seq<string>, part: string, b: seq<string>)
    ensures Normal(a + [""] + b) == Normal(a + b) && Normal(a + ["."] + b) == Normal(a + b)
    ensures part != "" && part != "." && part != ".." ==> Normal(a + [part, ".."] + b) == Normal(a + b)
    ensures Normal([".."] + b) == Normal(b)
    ensures forall kept | kept in Normal(a) :: kept != "" && kept != "." && kept != ".."
    ensures (forall kept | kept in a :: kept != "" && kept != "." && kept != "..") ==> Normal(a) == a
  {
    NormalOfOneMore(a, "");
    NormalOfOneMore(a, ".");
    NormalExtends(a + [""], a, b);
    NormalExtends(a + ["."], a, b);
    NormalOfOneMore(a, part);
    NormalOfOneMore(a + [part], "..");
    assert a + [part, ".."] == a + [part] + [".."];
    if part != "" && part != "." && part != ".." {
      NormalExtends(a + [part, ".."], a, b);
    }
    NormalOfOneMore([], "..");
    assert [] + [".."] == [".."] && [] + b == b;
    NormalExtends([".."], [], b);
    NormalFrom(a);
    if forall kept | kept in a :: kept != "" && kept != "." && kept != ".." {
      NormalStays(a);
    }
  }

  // The cleaned key.

  /** The end of a text is its white space. */
  predicate EndsIn(text: string, front: string) {
    && front <= text && AllSpace(text[|front|..])
    && (front == "" || !IsSpace(front[|front| - 1]))
  }

  lemma {:induction false} TrimRightIs(text: string)
    ensures EndsIn(text, TrimRight(text))
    decreases |text|
  {
    if text != "" && IsSpace(text[|text| - 1]) {
      var n := |text| - 1;
      TrimRightIs(text[..n]);
      var front := TrimRight(text);
      assert text[|front|..] == text[..n][|front|..] + [text[n]];
    }
  }

  /** Of the parts those at the end that are white space go, and the white space at the end of the last one left. */
  lemma {:induction false} StrippedIs(parts: seq<string>)
    ensures var r := Stripped(parts);
            && |r| <= |parts| && (forall k | |r| <= k < |parts| :: AllSpace(parts[k]))
            && (r != [] ==> r[..|r| - 1] == parts[..|r| - 1] && r[|r| - 1] != "" &&
                            EndsIn(parts[|r| - 1], r[|r| - 1]))
    decreases |parts|
  {
    if parts != [] {
      var n := |parts| - 1;
      TrimRightIs(parts[n]);
      if TrimRight(parts[n]) == "" {
        StrippedIs(parts[..n]);
        assert parts[n][0..] == parts[n];
      }
    }
  }

  /** A key can be cleaned exactly when it is empty or some part of its normalised path is more than white space. */
  lemma CleansIff(key: string)
    ensures Sanitize(key).Some? <==>
            key == "" || exists part | part in Normal(SplitPath(Decoded(key))) :: !AllSpace(part)
  {
    if key != "" {
      var parts := Normal(SplitPath(Decoded(key)));
      SanitizeMeaning(key);
      StrippedIs(parts);
      var r := Stripped(parts);
      if r != [] {
        var n := |r| - 1;
        assert !AllSpace(parts[n]) by {
          assert r[n][|r[n]| - 1] in parts[n];
        }
        assert parts[n] in parts;
      }
    }
  }

  /** The empty key stays, and any other begins with a slash exactly when it does so with a single one once decoded. */
  lemma LeadIff(key: string)
    requires Sanitize(key).Some?
    ensures var r, s := Sanitize(key).value, Decoded(key);
            && (key == "" ==> r == "")
            && (key != "" ==> r != "" && (r[0] == '/' <==> s != "" && s[0] == '/' && (|s| == 1 || s[1] != '/')))
  {
    if key != "" {
      var lead, parts := CleanedKey(key);
      assert parts[0] in parts && parts[0] != "" by {
        assert |parts| > 1 ==> parts[0] in parts[..|parts| - 1];
      }
      assert parts[0][0] in parts[0];
      assert Join(parts, "/")[0] == parts[0][0];
    }
  }
}
