/** Masking of trace bytes: every masked value is overwritten with as many NUL bytes, value by value. */
module Masking {
  import opened Patterns

  type Bytes = seq<bv8>

  const NUL: bv8 := 0

  function Nuls(n: nat): (r: Bytes)
    ensures |r| == n
  {
    seq(n, _ => NUL)
  }

  /** Every occurrence of the value, from the left and without overlaps, is overwritten; an empty value does nothing. */
  function Overwrite(raw: Bytes, value: Bytes): (r: Bytes)
    ensures |r| == |raw|
    decreases |raw|
  {
    if value == [] || raw == [] then raw
    else if value <= raw then Nuls(|value|) + Overwrite(raw[|value|..], value)
    else [raw[0]] + Overwrite(raw[1..], value)
  }

  /** The values are overwritten in the order of the list. */
  function Mask(values: seq<Bytes>, raw: Bytes): (r: Bytes)
    ensures |r| == |raw|
    decreases |values|
  {
    if values == [] then raw else Mask(values[1..], Overwrite(raw, values[0]))
  }

  /** No value holds a NUL byte. */
  predicate NulFree(values: seq<Bytes>) {
    forall v | v in values :: NUL !in v
  }

  // Byte by byte.

  /** The second sequence is the first with some bytes overwritten. */
  predicate Overwritten(s: Bytes, t: Bytes) {
    |s| == |t| && forall k | 0 <= k < |s| :: t[k] == s[k] || t[k] == NUL
  }

  lemma {:induction false} OverwriteOverwrites(raw: Bytes, value: Bytes)
    ensures Overwritten(raw, Overwrite(raw, value))
    decreases |raw|
  {
    if value != [] && raw != [] {
      OverwriteOverwrites(if value <= raw then raw[|value|..] else raw[1..], value);
    }
  }

  lemma {:induction false} MaskOverwrites(values: seq<Bytes>, raw: Bytes)
    ensures Overwritten(raw, Mask(values, raw))
    decreases |values|
  {
    if values != [] {
      OverwriteOverwrites(raw, values[0]);
      MaskOverwrites(values[1..], Overwrite(raw, values[0]));
    }
  }

  /** Overwriting makes no occurrence of a value without NULs. */
  lemma NoNewOccurrence(s: Bytes, t: Bytes, value: Bytes, i: nat)
    requires Overwritten(s, t) && NUL !in value && i <= |t| && value <= t[i..]
    ensures value <= s[i..]
  {
    forall k | 0 <= k < |value|
      ensures s[i..][k] == value[k]
    {
      assert value[k] in value && t[i..][k] == t[i + k];
    }
  }

  lemma LacksOverwritten(s: Bytes, t: Bytes, value: Bytes)
    requires Overwritten(s, t) && NUL !in value && Lacks(s, value)
    ensures Lacks(t, value)
  {
    forall i: nat | i <= |t|
      ensures !(value <= t[i..])
    {
      if value <= t[i..] {
        NoNewOccurrence(s, t, value, i);
      }
    }
  }

  // Masking twice.

  lemma {:induction false} NulsLack(n: nat, s: Bytes, value: Bytes)
    requires value != [] && NUL !in value && Lacks(s, value)
    ensures Lacks(Nuls(n) + s, value)
    decreases n
  {
    var r := Nuls(n) + s;
    if n == 0 {
      assert r == s;
    } else {
      NulsLack(n - 1, s, value);
      assert r[1..] == Nuls(n - 1) + s;
      assert value[0] in value && r[0] == NUL;
      LacksMore(r, value);
    }
  }

  lemma {:induction false} OverwriteLacks(raw: Bytes, value: Bytes)
    requires value != [] && NUL !in value
    ensures Lacks(Overwrite(raw, value), value)
    decreases |raw|
  {
    var r := Overwrite(raw, value);
    if raw == [] {
    } else if value <= raw {
      OverwriteLacks(raw[|value|..], value);
      NulsLack(|value|, Overwrite(raw[|value|..], value), value);
    } else {
      OverwriteLacks(raw[1..], value);
      assert r[1..] == Overwrite(raw[1..], value);
      if value <= r {
        OverwriteOverwrites(raw, value);
        assert r[0..] == r && raw[0..] == raw;
        NoNewOccurrence(raw, r, value, 0);
      }
      LacksMore(r, value);
    }
  }

  lemma {:induction false} OverwriteNothing(raw: Bytes, value: Bytes)
    requires Lacks(raw, value)
    ensures Overwrite(raw, value) == raw
    decreases |raw|
  {
    if value != [] && raw != [] {
      assert raw[0..] == raw;
      LacksTail(raw, value);
      OverwriteNothing(raw[1..], value);
    }
  }

  /** None of the values occurs, or only the empty one. */
  ghost predicate LacksAll(s: Bytes, values: seq<Bytes>) {
    forall v | v in values :: v == [] || Lacks(s, v)
  }

  lemma {:induction false} MaskLacksAll(values: seq<Bytes>, raw: Bytes)
    requires NulFree(values)
    ensures LacksAll(Mask(values, raw), values)
    decreases |values|
  {
    if values != [] {
      var next := Overwrite(raw, values[0]);
      MaskLacksAll(values[1..], next);
      MaskOverwrites(values[1..], next);
      if values[0] != [] {
        OverwriteLacks(raw, values[0]);
        LacksOverwritten(next, Mask(values, raw), values[0]);
      }
      assert values == [values[0]] + values[1..];
    }
  }

  lemma {:induction false} MaskNothing(values: seq<Bytes>, raw: Bytes)
    requires LacksAll(raw, values)
    ensures Mask(values, raw) == raw
    decreases |values|
  {
    if values != [] {
      assert values[0] in values;
      if values[0] != [] {
        OverwriteNothing(raw, values[0]);
      }
      MaskNothing(values[1..], raw);
    }
  }

  /** Masking what is masked changes nothing. */
  lemma MaskIdempotent(values: seq<Bytes>, raw: Bytes)
    requires NulFree(values)
    ensures Mask(values, Mask(values, raw)) == Mask(values, raw)
  {
    MaskLacksAll(values, raw);
    MaskNothing(values, Mask(values, raw));
  }

  // Masking in parts.

  /** An occurrence of the value has the cut inside it. */
  ghost predicate Spans(s: Bytes, value: Bytes, cut: nat) {
    exists i: nat :: i < cut < i + |value| && i <= |s| && value <= s[i..]
  }

  /** No occurrence of any value has the cut inside it. */
  ghost predicate CleanCut(values: seq<Bytes>, s: Bytes, cut: nat) {
    forall v | v in values :: !Spans(s, v, cut)
  }

  /** An occurrence that is overwritten has the cut inside it. */
  predicate Severed(raw: Bytes, value: Bytes, cut: nat)
    decreases |raw|
  {
    if value == [] || raw == [] || cut == 0 then false
    else if value <= raw then cut < |value| || Severed(raw[|value|..], value, cut - |value|)
    else Severed(raw[1..], value, cut - 1)
  }

  lemma {:induction false} SeveredAt(raw: Bytes, value: Bytes, cut: nat) returns (i: nat)
    requires Severed(raw, value, cut)
    ensures i < cut < i + |value| <= |raw| && value <= raw[i..]
    decreases |raw|
  {
    if value <= raw && cut < |value| {
      i := 0;
      assert raw[0..] == raw;
    } else {
      var n := if value <= raw then |value| else 1;
      var k := SeveredAt(raw[n..], value, cut - n);
      i := n + k;
      assert raw[n..][k..] == raw[i..];
    }
  }

  lemma {:induction false} OverwriteSplits(a: Bytes, b: Bytes, value: Bytes)
    requires !Severed(a + b, value, |a|)
    ensures Overwrite(a + b, value) == Overwrite(a, value) + Overwrite(b, value)
    decreases |a|
  {
    var s := a + b;
    if a == [] {
      assert s == b;
    } else if value != [] {
      assert value <= s <==> value <= a;
      var n := if value <= s then |value| else 1;
      assert s[n..] == a[n..] + b;
      OverwriteSplits(a[n..], b, value);
    }
  }

  lemma CleanOverwritten(values: seq<Bytes>, s: Bytes, t: Bytes, cut: nat)
    requires NulFree(values) && Overwritten(s, t)
    requires forall v | v in values :: !Spans(s, v, cut)
    ensures CleanCut(values, t, cut)
  {
    forall v | v in values
      ensures !Spans(t, v, cut)
    {
      if Spans(t, v, cut) {
        var i: nat :| i < cut < i + |v| && i <= |t| && v <= t[i..];
        NoNewOccurrence(s, t, v, i);
      }
    }
  }

  lemma {:induction false} MaskSplits(values: seq<Bytes>, a: Bytes, b: Bytes)
    requires NulFree(values) && CleanCut(values, a + b, |a|)
    ensures Mask(values, a + b) == Mask(values, a) + Mask(values, b)
    decreases |values|
  {
    if values != [] {
      assert values[0] in values;
      if Severed(a + b, values[0], |a|) {
        var i := SeveredAt(a + b, values[0], |a|);
      }
      OverwriteSplits(a, b, values[0]);
      OverwriteOverwrites(a + b, values[0]);
      CleanOverwritten(values[1..], a + b, Overwrite(a + b, values[0]), |a|);
      MaskSplits(values[1..], Overwrite(a, values[0]), Overwrite(b, values[0]));
    }
  }

  lemma CleanInPrefix(values: seq<Bytes>, s: Bytes, n: nat, cut: nat)
    requires n <= |s| && CleanCut(values, s, cut)
    ensures CleanCut(values, s[..n], cut)
  {
    forall v, i: nat | v in values && i <= n && v <= s[..n][i..]
      ensures v <= s[i..]
    {
      assert s[..n][i..] <= s[i..];
    }
  }

  /** Masked bytes up to a clean cut and unmasked ones from it on mask to the masked whole. */
  lemma CleanResend(values: seq<Bytes>, log: Bytes, n: nat, start: nat, stop: nat)
    requires NulFree(values) && start <= n <= |log| && start <= stop <= |log| && CleanCut(values, log, start)
    ensures Mask(values, Mask(values, log[..n])[..start] + log[start..stop]) == Mask(values, log[..stop])
  {
    var a, b := log[..start], log[start..stop];
    CleanInPrefix(values, log, n, start);
    assert log[..n] == a + log[start..n];
    MaskSplits(values, a, log[start..n]);
    assert Mask(values, log[..n])[..start] == Mask(values, a);
    CleanInPrefix(values, log, stop, start);
    assert log[..stop] == a + b;
    MaskSplits(values, a, b);
    MaskOverwrites(values, a);
    CleanOverwritten(values, a + b, Mask(values, a) + b, start);
    MaskSplits(values, Mask(values, a), b);
    MaskIdempotent(values, a);
  }

  // One masked value.

  lemma {:induction false} OverwriteSkipsNuls(n: nat, s: Bytes, value: Bytes)
    requires value != [] && NUL !in value
    ensures Overwrite(Nuls(n) + s, value) == Nuls(n) + Overwrite(s, value)
    decreases n
  {
    var r := Nuls(n) + s;
    if n == 0 {
      assert r == s;
    } else {
      assert value[0] in value && r[0] == NUL;
      assert r[1..] == Nuls(n - 1) + s;
      OverwriteSkipsNuls(n - 1, s, value);
    }
  }

  lemma {:induction false} OverwriteShort(s: Bytes, value: Bytes)
    requires |s| < |value|
    ensures Overwrite(s, value) == s
    decreases |s|
  {
    if s != [] {
      OverwriteShort(s[1..], value);
    }
  }

  lemma Associates(a: Bytes, b: Bytes, c: Bytes)
    ensures a + b + c == a + (b + c)
  {
  }

  lemma DifferBehind(front: Bytes, a: Bytes, b: Bytes)
    requires a != b
    ensures front + a != front + b
  {
    assert (front + a)[|front|..] == a && (front + b)[|front|..] == b;
  }

  lemma OverwriteWindow(value: Bytes, rest: Bytes)
    requires value != []
    ensures Overwrite(value + rest, value) == Nuls(|value|) + Overwrite(rest, value)
  {
    assert (value + rest)[|value|..] == rest;
  }

  lemma AppendedAfterWindow(value: Bytes, rest: Bytes, b: Bytes)
    requires value != [] && NUL !in value
    requires Overwrite(Overwrite(rest, value) + b, value) == Overwrite(rest + b, value)
    ensures Overwrite(Overwrite(value + rest, value) + b, value) == Overwrite(value + rest + b, value)
  {
    var r := Overwrite(rest, value);
    OverwriteWindow(value, rest);
    Associates(value, rest, b);
    OverwriteWindow(value, rest + b);
    Associates(Nuls(|value|), r, b);
    OverwriteSkipsNuls(|value|, r + b, value);
  }

  /** Appending to masked bytes and masking again is masking it all. */
  lemma {:induction false} OverwriteAppended(a: Bytes, b: Bytes, value: Bytes)
    requires value != [] && NUL !in value
    ensures Overwrite(Overwrite(a, value) + b, value) == Overwrite(a + b, value)
    decreases |a|
  {
    if |a| < |value| {
      OverwriteShort(a, value);
    } else if value <= a {
      var rest := a[|value|..];
      assert a == value + rest;
      OverwriteAppended(rest, b, value);
      AppendedAfterWindow(value, rest, b);
    } else {
      OverwriteAppended(a[1..], b, value);
      OverwriteOverwrites(a, value);
      var r := Overwrite(a, value);
      assert (r + b)[1..] == Overwrite(a[1..], value) + b;
      assert (a + b)[1..] == a[1..] + b;
    }
  }

  function NulCount(s: Bytes): nat {
    if s == [] then 0 else (if s[0] == NUL then 1 else 0) + NulCount(s[1..])
  }

  lemma {:induction false} NulCountConcat(a: Bytes, b: Bytes)
    ensures NulCount(a + b) == NulCount(a) + NulCount(b)
    decreases |a|
  {
    if a == [] {
      assert a + b == b;
    } else {
      assert (a + b)[1..] == a[1..] + b;
      NulCountConcat(a[1..], b);
    }
  }

  lemma {:induction false} NulCountExtremes(n: nat, s: Bytes)
    requires NUL !in s
    ensures NulCount(Nuls(n)) == n && NulCount(s) == 0
    decreases n + |s|
  {
    if n > 0 {
      assert Nuls(n)[1..] == Nuls(n - 1);
      NulCountExtremes(n - 1, s);
    } else if s != [] {
      assert s[0] in s;
      NulCountExtremes(0, s[1..]);
    }
  }

  function Repeated(times: nat, size: nat): nat {
    if times == 0 then 0 else size + Repeated(times - 1, size)
  }

  lemma {:induction false} RepeatedGap(x: nat, y: nat, size: nat)
    requires x < y
    ensures Repeated(y, size) >= Repeated(x, size) + size
    decreases y
  {
    if x < y - 1 {
      RepeatedGap(x, y - 1, size);
    }
  }

  lemma NulCountWindow(value: Bytes, rest: Bytes, after: Bytes)
    requires NUL !in value
    ensures NulCount(value + rest) == NulCount(rest)
    ensures NulCount(Nuls(|value|) + after) == |value| + NulCount(after)
  {
    NulCountConcat(value, rest);
    NulCountConcat(Nuls(|value|), after);
    NulCountExtremes(|value|, value);
  }

  /** Overwriting adds NULs by whole values. */
  lemma {:induction false} OverwriteAddsWhole(s: Bytes, value: Bytes) returns (windows: nat)
    requires value != [] && NUL !in value
    ensures NulCount(Overwrite(s, value)) == NulCount(s) + Repeated(windows, |value|)
    decreases |s|
  {
    if s == [] {
      windows := 0;
    } else if value <= s {
      var rest := s[|value|..];
      var more := OverwriteAddsWhole(rest, value);
      windows := more + 1;
      assert s == value + rest;
      NulCountWindow(value, rest, Overwrite(rest, value));
    } else {
      windows := OverwriteAddsWhole(s[1..], value);
      assert Overwrite(s, value)[1..] == Overwrite(s[1..], value);
    }
  }

  /** A part of one value is no number of whole ones. */
  lemma NotWhole(part: nat, size: nat, x: nat, y: nat)
    requires 0 < part < size
    ensures part + Repeated(x, size) != Repeated(y, size)
  {
    if x < y {
      RepeatedGap(x, y, size);
    } else if y < x {
      RepeatedGap(y, x, size);
    }
  }

  /** Bytes without NULs already overwritten, fewer than the value has, do not count as a value. */
  lemma TornApart(a: Bytes, b: Bytes, value: Bytes)
    requires value != [] && NUL !in value && NUL !in a && 0 < |a| < |value|
    ensures Overwrite(Nuls(|a|) + b, value) != Overwrite(a + b, value)
  {
    OverwriteSkipsNuls(|a|, b, value);
    var x := OverwriteAddsWhole(b, value);
    var y := OverwriteAddsWhole(a + b, value);
    NulCountConcat(a, b);
    NulCountConcat(Nuls(|a|), Overwrite(b, value));
    NulCountExtremes(|a|, a);
    NotWhole(|a|, |value|, x, y);
  }

  /** What is stored of the bytes a once they are masked together with c behind them. */
  function Front(a: Bytes, c: Bytes, value: Bytes): (r: Bytes)
    ensures |r| == |a|
    decreases |a|
  {
    if a == [] || value == [] then a
    else if value <= a + c then
      if |a| < |value| then Nuls(|a|) else Nuls(|value|) + Front(a[|value|..], c, value)
    else [a[0]] + Front(a[1..], c, value)
  }

  lemma {:induction false} FrontIsStored(a: Bytes, c: Bytes, value: Bytes)
    ensures Overwrite(a + c, value)[..|a|] == Front(a, c, value)
    ensures Overwritten(a, Front(a, c, value))
    decreases |a|
  {
    if a != [] && value != [] {
      if value <= a + c {
        if |a| >= |value| {
          assert (a + c)[|value|..] == a[|value|..] + c;
          FrontIsStored(a[|value|..], c, value);
        }
      } else {
        assert (a + c)[1..] == a[1..] + c;
        FrontIsStored(a[1..], c, value);
      }
    }
  }

  lemma {:induction false} FrontOfWhole(a: Bytes, c: Bytes, value: Bytes)
    requires !Severed(a + c, value, |a|)
    ensures Front(a, c, value) == Overwrite(a, value)
  {
    OverwriteSplits(a, c, value);
    FrontIsStored(a, c, value);
  }

  lemma BehindWindow(value: Bytes, rest: Bytes, stored: Bytes, b: Bytes)
    requires value != [] && NUL !in value && Overwrite(stored + b, value) != Overwrite(rest + b, value)
    ensures Overwrite(Nuls(|value|) + stored + b, value) != Overwrite(value + rest + b, value)
  {
    Associates(Nuls(|value|), stored, b);
    Associates(value, rest, b);
    OverwriteSkipsNuls(|value|, stored + b, value);
    OverwriteWindow(value, rest + b);
    DifferBehind(Nuls(|value|), Overwrite(stored + b, value), Overwrite(rest + b, value));
  }

  lemma FrontPastWindow(a: Bytes, c: Bytes, b: Bytes, value: Bytes)
    requires value != [] && NUL !in value && value <= a + c && |value| <= |a|
    requires var rest := a[|value|..]; Overwrite(Front(rest, c, value) + b, value) != Overwrite(rest + b, value)
    ensures Overwrite(Front(a, c, value) + b, value) != Overwrite(a + b, value)
  {
    var rest := a[|value|..];
    assert a == value + rest;
    BehindWindow(value, rest, Front(rest, c, value), b);
  }

  lemma OverwrittenThen(s: Bytes, t: Bytes, b: Bytes)
    requires Overwritten(s, t)
    ensures Overwritten(s + b, t + b)
  {
  }

  lemma BehindByte(byte: bv8, rest: Bytes, stored: Bytes, b: Bytes, value: Bytes)
    requires value != [] && NUL !in value && Overwritten(rest, stored) && !(value <= [byte] + rest + b)
    requires Overwrite(stored + b, value) != Overwrite(rest + b, value)
    ensures Overwrite([byte] + stored + b, value) != Overwrite([byte] + rest + b, value)
  {
    Associates([byte], rest, b);
    Associates([byte], stored, b);
    OverwrittenThen(rest, stored, b);
    DifferBehind([byte], Overwrite(stored + b, value), Overwrite(rest + b, value));
  }

  lemma FrontPastByte(a: Bytes, c: Bytes, b: Bytes, value: Bytes)
    requires value != [] && NUL !in value && a != [] && |value| <= |a + c| && !(value <= a + c) && (b <= c || c <= b)
    requires Overwrite(Front(a[1..], c, value) + b, value) != Overwrite(a[1..] + b, value)
    ensures Overwrite(Front(a, c, value) + b, value) != Overwrite(a + b, value)
  {
    FrontIsStored(a[1..], c, value);
    assert a == [a[0]] + a[1..];
    BehindByte(a[0], a[1..], Front(a[1..], c, value), b, value);
  }

  lemma {:induction false} FrontOfSevered(a: Bytes, c: Bytes, b: Bytes, value: Bytes)
    requires value != [] && NUL !in value && Severed(a + c, value, |a|) && (b <= c || c <= b)
    ensures Overwrite(Front(a, c, value) + b, value) != Overwrite(a + b, value)
    decreases |a|
  {
    var _ := SeveredAt(a + c, value, |a|);
    if value <= a + c && |a| < |value| {
      assert forall k | 0 <= k < |a| :: a[k] == value[k] && value[k] in value;
      TornApart(a, b, value);
    } else if value <= a + c {
      assert (a + c)[|value|..] == a[|value|..] + c;
      FrontOfSevered(a[|value|..], c, b, value);
      FrontPastWindow(a, c, b, value);
    } else {
      assert (a + c)[1..] == a[1..] + c;
      FrontOfSevered(a[1..], c, b, value);
      FrontPastByte(a, c, b, value);
    }
  }

  lemma MaskOne(value: Bytes, raw: Bytes)
    ensures Mask([value], raw) == Overwrite(raw, value)
  {
    assert [value][1..] == [];
    assert Mask([], Overwrite(raw, value)) == Overwrite(raw, value);
  }

  /** With one masked value: bytes sent again from an offset give the masked log exactly when no occurrence that has
      been overwritten has the offset inside it. */
  lemma ResendIff(log: Bytes, value: Bytes, n: nat, start: nat, stop: nat)
    requires value != [] && NUL !in value && start <= n <= |log| && start <= stop <= |log|
    ensures Mask([value], Mask([value], log[..n])[..start] + log[start..stop]) == Mask([value], log[..stop]) <==>
            !Severed(log[..n], value, start)
  {
    var a, b, c := log[..start], log[start..stop], log[start..n];
    assert log[..n] == a + c && log[..stop] == a + b;
    assert b <= c || c <= b;
    MaskOne(value, a + c);
    MaskOne(value, a + b);
    MaskOne(value, Front(a, c, value) + b);
    FrontIsStored(a, c, value);
    if Severed(a + c, value, |a|) {
      FrontOfSevered(a, c, b, value);
    } else {
      FrontOfWhole(a, c, value);
      OverwriteAppended(a, b, value);
    }
  }

  /** A cut at the end severs nothing. */
  lemma {:induction false} NothingSeveredAtEnd(raw: Bytes, value: Bytes)
    ensures !Severed(raw, value, |raw|)
    decreases |raw|
  {
    if value != [] && raw != [] {
      NothingSeveredAtEnd(if value <= raw then raw[|value|..] else raw[1..], value);
    }
  }

  lemma MaskTwo(v: Bytes, u: Bytes, raw: Bytes)
    ensures Mask([v, u], raw) == Overwrite(Overwrite(raw, v), u)
  {
    assert [v, u][1..] == [u];
    MaskOne(u, Overwrite(raw, v));
  }

  /** Masking in two goes differs for a value that begins with another one: the second go no longer finds it. */
  lemma PrefixValueEscapes()
    ensures var a, b, c: bv8 := 97, 98, 99;
            var values := [[a, b, c], [a, b]];
            && Mask(values, Mask(values, [a, b]) + [c]) == [NUL, NUL, c]
            && Mask(values, [a, b, c]) == [NUL, NUL, NUL]
  {
    var a, b, c: bv8 := 97, 98, 99;
    MaskTwo([a, b, c], [a, b], [a, b]);
    OverwriteShort([a, b], [a, b, c]);
    OverwriteWindow([a, b], []);
    assert [a, b] + [] == [a, b] && Nuls(2) + [] == [NUL, NUL];
    MaskTwo([a, b, c], [a, b], [NUL, NUL, c]);
    OverwriteSkipsNuls(2, [c], [a, b, c]);
    OverwriteSkipsNuls(2, [c], [a, b]);
    OverwriteShort([c], [a, b]);
    OverwriteShort([c], [a, b, c]);
    assert Nuls(2) + [c] == [NUL, NUL, c] == [NUL, NUL] + [c];
    MaskTwo([a, b, c], [a, b], [a, b, c]);
    OverwriteWindow([a, b, c], []);
    assert [a, b, c] + [] == [a, b, c] && Nuls(3) + [] == [NUL, NUL, NUL];
    OverwriteSkipsNuls(3, [], [a, b]);
  }

  /** Masking twice differs for a value with a NUL in it: the first go may make another occurrence. */
  lemma NulValueMasksMore()
    ensures var a: bv8 := 97;
            && Mask([[a, NUL]], [a, a, NUL]) == [a, NUL, NUL]
            && Mask([[a, NUL]], [a, NUL, NUL]) == [NUL, NUL, NUL]
  {
    var a: bv8 := 97;
    MaskOne([a, NUL], [a, a, NUL]);
    MaskOne([a, NUL], [a, NUL, NUL]);
    OverwriteWindow([a, NUL], []);
    OverwriteWindow([a, NUL], [NUL]);
    assert [a, NUL] + [] == [a, NUL] && [a, NUL] + [NUL] == [a, NUL, NUL];
    assert [a, a, NUL][1..] == [a, NUL] && [a, a, NUL][1] != NUL;
    OverwriteShort([NUL], [a, NUL]);
  }
}
