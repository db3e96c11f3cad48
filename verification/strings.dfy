/**
 * String helpers of the modules: prefix and suffix tests, substring search,
 * replace-all, decimal rendering and parsing of handles, and joining.
 */
module Strings {
  import opened Wrappers

  predicate StartsWith(s: string, prefix: string) {
    |prefix| <= |s| && s[..|prefix|] == prefix
  }

  predicate EndsWith(s: string, suffix: string) {
    |suffix| <= |s| && s[|s| - |suffix|..] == suffix
  }

  /** `s` without its leading `prefix`. */
  function StripPrefix(s: string, prefix: string): (r: string)
    requires StartsWith(s, prefix)
    ensures prefix + r == s
  {
    s[|prefix|..]
  }

  /** `pat` occurs in `s` starting at index `i`. */
  predicate OccursAt(s: string, pat: string, i: int) {
    0 <= i && i + |pat| <= |s| && s[i..i + |pat|] == pat
  }

  /**
   * `std::string::find(pat, start)`: the leftmost index at or after `start`
   * where `pat` occurs, `None` standing for `npos`.
   */
  function FindFrom(s: string, pat: string, start: nat): (r: Option<nat>)
    ensures r.Some? ==> start <= r.value && OccursAt(s, pat, r.value)
    ensures r.Some? ==> forall j :: start <= j < r.value ==> !OccursAt(s, pat, j)
    ensures r.None? ==> forall j :: start <= j ==> !OccursAt(s, pat, j)
    decreases |s| - start
  {
    if start + |pat| > |s| then None
    else if OccursAt(s, pat, start) then Some(start)
    else FindFrom(s, pat, start + 1)
  }

  /**
   * Leftmost, non-overlapping replacement of every occurrence of `from` by
   * `to`, never rescanning inserted text. This is the reference definition.
   */
  function ReplaceAllSpec(s: string, from: string, to: string): string
    requires |from| > 0
    decreases |s|
  {
    if |s| < |from| then s
    else if OccursAt(s, from, 0) then to + ReplaceAllSpec(s[|from|..], from, to)
    else [s[0]] + ReplaceAllSpec(s[1..], from, to)
  }

  /** An occurrence in a suffix of `s` is an occurrence in `s`, shifted. */
  lemma OccursInSuffix(s: string, pat: string, k: nat, j: nat)
    requires k <= |s|
    ensures OccursAt(s[k..], pat, j) <==> OccursAt(s, pat, k + j)
  {
    if j + |pat| <= |s| - k {
      assert s[k..][j..j + |pat|] == s[k + j..k + j + |pat|];
    }
  }

  /** With no occurrence of `from`, replacement leaves `s` as it is. */
  lemma {:induction false} ReplaceAllAbsent(s: string, from: string, to: string)
    requires |from| > 0
    requires forall j :: 0 <= j ==> !OccursAt(s, from, j)
    ensures ReplaceAllSpec(s, from, to) == s
    decreases |s|
  {
    if |s| >= |from| {
      assert !OccursAt(s, from, 0);
      forall j: nat
        ensures !OccursAt(s[1..], from, j)
      {
        OccursInSuffix(s, from, 1, j);
      }
      ReplaceAllAbsent(s[1..], from, to);
      assert [s[0]] + s[1..] == s;
    }
  }

  /** The leftmost occurrence at or after `d` is, in the suffix from `d`, the leftmost one. */
  lemma LeftmostInSuffix(s: string, pat: string, d: nat, j: nat)
    requires d <= j && OccursAt(s, pat, j)
    requires forall k :: d <= k < j ==> !OccursAt(s, pat, k)
    ensures OccursAt(s[d..], pat, j - d)
    ensures forall k :: 0 <= k < j - d ==> !OccursAt(s[d..], pat, k)
  {
    OccursInSuffix(s, pat, d, j - d);
    forall k: nat | k < j - d
      ensures !OccursAt(s[d..], pat, k)
    {
      OccursInSuffix(s, pat, d, k);
    }
  }

  /** Replacement at an occurrence of `from` at the start. */
  lemma ReplaceAllHit(s: string, from: string, to: string)
    requires |from| > 0 && OccursAt(s, from, 0)
    ensures ReplaceAllSpec(s, from, to) == to + ReplaceAllSpec(s[|from|..], from, to)
  {
  }

  /** Replacement where `from` does not occur at the start. */
  lemma ReplaceAllMiss(s: string, from: string, to: string)
    requires |from| > 0 && |from| <= |s| && !OccursAt(s, from, 0)
    ensures ReplaceAllSpec(s, from, to) == [s[0]] + ReplaceAllSpec(s[1..], from, to)
  {
  }

  lemma ConsConcat(c: char, x: string, y: string, z: string)
    ensures [c] + (x + y + z) == [c] + x + y + z
  {
  }

  lemma ConcatRegroup(w: string, x: string, y: string, z: string)
    ensures w + (x + y + z) == (w + x) + y + z
  {
  }

  lemma SameReplacement(a: string, b: string, from: string, to: string)
    requires |from| > 0 && a == b
    ensures ReplaceAllSpec(a, from, to) == ReplaceAllSpec(b, from, to)
  {
  }

  /**
   * Unfolds the replacement of the suffix from `d` up to its leftmost
   * occurrence of `from`, at index `j` of `s`.
   */
  lemma {:induction false} ReplaceAllFrom(s: string, from: string, to: string, d: nat, j: nat)
    requires |from| > 0 && d <= j && OccursAt(s, from, j)
    requires forall k :: d <= k < j ==> !OccursAt(s, from, k)
    ensures ReplaceAllSpec(s[d..], from, to) == s[d..j] + to + ReplaceAllSpec(s[j + |from|..], from, to)
    decreases j - d
  {
    if d == j {
      ReplaceAllFromHit(s, from, to, j);
      assert s[d..j] == [];
    } else {
      assert !OccursAt(s, from, d);
      ReplaceAllFrom(s, from, to, d + 1, j);
      ReplaceAllFromMiss(s, from, to, d, j, ReplaceAllSpec(s[j + |from|..], from, to));
    }
  }

  /** The base case of `ReplaceAllFrom`: the suffix starts with `from`. */
  lemma ReplaceAllFromHit(s: string, from: string, to: string, j: nat)
    requires |from| > 0 && OccursAt(s, from, j)
    ensures ReplaceAllSpec(s[j..], from, to) == to + ReplaceAllSpec(s[j + |from|..], from, to)
  {
    OccursInSuffix(s, from, j, 0);
    ReplaceAllHit(s[j..], from, to);
    assert s[j..][|from|..] == s[j + |from|..];
    SameReplacement(s[j..][|from|..], s[j + |from|..], from, to);
  }

  /** The step of `ReplaceAllFrom`: a suffix that does not start with `from` keeps its first character. */
  lemma ReplaceAllFromMiss(s: string, from: string, to: string, d: nat, j: nat, after: string)
    requires |from| > 0 && d < j && j + |from| <= |s| && !OccursAt(s, from, d)
    requires ReplaceAllSpec(s[d + 1..], from, to) == s[d + 1..j] + to + after
    ensures ReplaceAllSpec(s[d..], from, to) == s[d..j] + to + after
  {
    OccursInSuffix(s, from, d, 0);
    ReplaceAllMiss(s[d..], from, to);
    assert s[d..][1..] == s[d + 1..];
    SameReplacement(s[d..][1..], s[d + 1..], from, to);
    assert s[d..j] == [s[d]] + s[d + 1..j];
    ConsConcat(s[d], s[d + 1..j], to, after);
  }

  /** Unfolds the replacement up to the leftmost occurrence, at index `j`. */
  lemma ReplaceAllAtFirst(s: string, from: string, to: string, j: nat)
    requires |from| > 0
    requires OccursAt(s, from, j)
    requires forall k :: 0 <= k < j ==> !OccursAt(s, from, k)
    ensures ReplaceAllSpec(s, from, to) == s[..j] + to + ReplaceAllSpec(s[j + |from|..], from, to)
  {
    ReplaceAllFrom(s, from, to, 0, j);
    assert s[0..] == s && s[0..j] == s[..j];
  }

  /**
   * The state of the `replace_all` loop: the text before `startPos` is the
   * finished output, the text from `startPos` on is the unscanned suffix of
   * the original `str0`, starting at `consumed`.
   */
  ghost predicate ReplaceLoopState(str0: string, from: string, to: string, str: string, startPos: nat, consumed: nat)
    requires |from| > 0
  {
    && consumed <= |str0|
    && startPos <= |str|
    && str[startPos..] == str0[consumed..]
    && str[..startPos] + ReplaceAllSpec(str0[consumed..], from, to) == ReplaceAllSpec(str0, from, to)
  }

  /** How the slices of the original and the working string line up around one replacement. */
  lemma StepSlices(str0: string, str: string, startPos: nat, consumed: nat, j: nat, n: nat)
    requires consumed <= |str0| && startPos <= |str| && str[startPos..] == str0[consumed..]
    requires startPos + j + n <= |str|
    ensures consumed + j + n <= |str0|
    ensures str[startPos + j + n..] == str0[consumed + j + n..]
    ensures str0[consumed..][j + n..] == str0[consumed + j + n..]
    ensures str[..startPos] + str0[consumed..][..j] == str[..startPos + j]
  {
    assert str[startPos + j + n..] == str[startPos..][j + n..];
    assert str0[consumed..][..j] == str[startPos..startPos + j];
  }

  /** One replacement at the leftmost unscanned occurrence keeps the loop state and consumes input. */
  lemma ReplaceStep(str0: string, from: string, to: string, str: string, startPos: nat, consumed: nat, pos: nat)
    requires |from| > 0
    requires ReplaceLoopState(str0, from, to, str, startPos, consumed)
    requires startPos <= pos && OccursAt(str, from, pos)
    requires forall k :: startPos <= k < pos ==> !OccursAt(str, from, k)
    ensures consumed + (pos - startPos) + |from| <= |str0|
    ensures ReplaceLoopState(str0, from, to, str[..pos] + to + str[pos + |from|..], pos + |to|,
                             consumed + (pos - startPos) + |from|)
  {
    var rest := str0[consumed..];
    var j := pos - startPos;
    LeftmostInSuffix(str, from, startPos, pos);
    ReplaceAllAtFirst(rest, from, to, j);
    StepSlices(str0, str, startPos, consumed, j, |from|);
    var consumed' := consumed + j + |from|;
    var tail := str[pos + |from|..];
    var str' := str[..pos] + to + tail;
    assert str'[..pos + |to|] == str[..pos] + to;
    assert str'[pos + |to|..] == tail;
    var done := ReplaceAllSpec(str0[consumed'..], from, to);
    SameReplacement(rest[j + |from|..], str0[consumed'..], from, to);
    ConcatRegroup(str[..startPos], rest[..j], to, done);
  }

  /** When `find` reports nothing, the text is the replacement of the whole original. */
  lemma ReplaceDone(str0: string, from: string, to: string, str: string, startPos: nat, consumed: nat)
    requires |from| > 0
    requires ReplaceLoopState(str0, from, to, str, startPos, consumed)
    requires FindFrom(str, from, startPos).None?
    ensures str == ReplaceAllSpec(str0, from, to)
  {
    forall k: nat
      ensures !OccursAt(str0[consumed..], from, k)
    {
      OccursInSuffix(str, from, startPos, k);
    }
    ReplaceAllAbsent(str0[consumed..], from, to);
    assert str == str[..startPos] + str[startPos..];
  }

  /**
   * `replace_all`: repeatedly finds `from` at or after `start_pos`, replaces
   * it by `to` in place and resumes after the inserted text. A non-empty
   * `from` is needed for the loop to end: with an empty `from` every search
   * succeeds where it starts (see `EmptyPatternNoProgress`).
   */
  method ReplaceAll(str0: string, from: string, to: string) returns (str: string)
    requires |from| > 0
    ensures str == ReplaceAllSpec(str0, from, to)
  {
    str := str0;
    var startPos: nat := 0;
    ghost var consumed: nat := 0;
    var found := FindFrom(str, from, startPos);
    while found.Some?
      invariant ReplaceLoopState(str0, from, to, str, startPos, consumed)
      invariant found == FindFrom(str, from, startPos)
      decreases |str0| - consumed
    {
      var pos := found.value;
      assert forall k :: startPos <= k < pos ==> !OccursAt(str, from, k);
      ReplaceStep(str0, from, to, str, startPos, consumed, pos);
      consumed := consumed + (pos - startPos) + |from|;
      str := str[..pos] + to + str[pos + |from|..];
      startPos := pos + |to|;
      found := FindFrom(str, from, startPos);
    }
    ReplaceDone(str0, from, to, str, startPos, consumed);
  }

  /**
   * With an empty `from`, `find` succeeds exactly where it starts, and after
   * the replacement the unscanned suffix is as long as before: the loop of
   * `ReplaceAll` makes no progress, which is why it requires a non-empty `from`.
   */
  lemma EmptyPatternNoProgress(s: string, to: string, start: nat)
    requires start <= |s|
    ensures FindFrom(s, "", start) == Some(start)
    ensures var s' := s[..start] + "" + to + s[start..];
            |s'| - (start + |to|) == |s| - start
  {
    assert OccursAt(s, "", start);
  }

  /** `s` with every `a` replaced by `b`, position by position. */
  function MapChar(s: string, a: char, b: char): string {
    seq(|s|, i requires 0 <= i < |s| => if s[i] == a then b else s[i])
  }

  /**
   * Replacing one character by one character keeps the length and changes
   * exactly the positions that held `a`.
   */
  lemma {:induction false} ReplaceSingleChar(s: string, a: char, b: char)
    ensures |ReplaceAllSpec(s, [a], [b])| == |s|
    ensures forall i :: 0 <= i < |s| ==>
              ReplaceAllSpec(s, [a], [b])[i] == (if s[i] == a then b else s[i])
    ensures ReplaceAllSpec(s, [a], [b]) == MapChar(s, a, b)
    decreases |s|
  {
    if |s| > 0 {
      ReplaceSingleChar(s[1..], a, b);
      var r := ReplaceAllSpec(s[1..], [a], [b]);
      if OccursAt(s, [a], 0) {
        assert s[0] == a;
        assert ReplaceAllSpec(s, [a], [b]) == [b] + r;
      } else {
        assert s[0] != a;
        assert ReplaceAllSpec(s, [a], [b]) == [s[0]] + r;
      }
    }
  }

  /** A single character `a` that does not occur in `to` is gone after replacement. */
  lemma {:induction false} ReplaceCharRemoves(s: string, a: char, to: string)
    requires a !in to
    ensures forall i :: 0 <= i < |ReplaceAllSpec(s, [a], to)| ==> ReplaceAllSpec(s, [a], to)[i] != a
    decreases |s|
  {
    if |s| > 0 {
      ReplaceCharRemoves(s[1..], a, to);
      var r := ReplaceAllSpec(s[1..], [a], to);
      if OccursAt(s, [a], 0) {
        assert ReplaceAllSpec(s, [a], to) == to + r;
      } else {
        assert s[0] != a;
        assert ReplaceAllSpec(s, [a], to) == [s[0]] + r;
      }
    }
  }

  // ---------------------------------------------------------------------------
  // Decimal rendering (C++ `to_string`, Rust `{}`) and Rust's `str::parse::<u32>`.

  predicate IsDigit(c: char) { '0' <= c <= '9' }

  function DigitChar(d: nat): (c: char)
    requires d < 10
    ensures IsDigit(c)
  {
    (d + '0' as int) as char
  }

  function DigitValue(c: char): nat
    requires IsDigit(c)
  {
    (c as int - '0' as int)
  }

  /** The decimal rendering of `n`, without sign or leading zeros. */
  function NatToDecimal(n: nat): (r: string)
    ensures |r| > 0
    ensures forall i :: 0 <= i < |r| ==> IsDigit(r[i])
    ensures |r| > 1 ==> r[0] != '0'
    decreases n
  {
    if n < 10 then [DigitChar(n)] else NatToDecimal(n / 10) + [DigitChar(n % 10)]
  }

  /** The value of a string of decimal digits. */
  function DecimalValue(s: string): nat
    requires forall i :: 0 <= i < |s| ==> IsDigit(s[i])
    decreases |s|
  {
    if |s| == 0 then 0
    else DecimalValue(s[..|s| - 1]) * 10 + DigitValue(s[|s| - 1])
  }

  /**
   * `str::parse::<u32>`: an optional `+` followed by at least one decimal
   * digit, denoting a value below 2^32; anything else is an error.
   */
  function ParseU32(s: string): (r: Option<nat>)
    ensures r.Some? ==> r.value < 0x1_0000_0000
    ensures r.Some? ==> |s| > 0
  {
    var digits := if |s| > 0 && s[0] == '+' then s[1..] else s;
    if |digits| == 0 || exists i :: 0 <= i < |digits| && !IsDigit(digits[i]) then None
    else if DecimalValue(digits) < 0x1_0000_0000 then Some(DecimalValue(digits))
    else None
  }

  lemma {:induction false} DecimalValueOfNatToDecimal(n: nat)
    ensures DecimalValue(NatToDecimal(n)) == n
    decreases n
  {
    var r := NatToDecimal(n);
    if n >= 10 {
      DecimalValueOfNatToDecimal(n / 10);
      assert r[..|r| - 1] == NatToDecimal(n / 10);
    }
  }

  /** Parsing the decimal rendering of a 32-bit value gives the value back. */
  lemma ParseU32OfDecimal(n: nat)
    requires n < 0x1_0000_0000
    ensures ParseU32(NatToDecimal(n)) == Some(n)
  {
    DecimalValueOfNatToDecimal(n);
  }

  // ---------------------------------------------------------------------------
  // Joining (Rust's `[String]::join`).

  /** The items in order, with `sep` between each two neighbours. */
  function Join(items: seq<string>, sep: string): string
    decreases |items|
  {
    if |items| == 0 then ""
    else if |items| == 1 then items[0]
    else items[0] + sep + Join(items[1..], sep)
  }

  /** Appending an item to a non-empty list appends the separator and the item. */
  lemma {:induction false} JoinSnoc(items: seq<string>, x: string, sep: string)
    requires |items| > 0
    ensures Join(items + [x], sep) == Join(items, sep) + sep + x
    decreases |items|
  {
    if |items| > 1 {
      assert (items + [x])[1..] == items[1..] + [x];
      JoinSnoc(items[1..], x, sep);
    } else {
      assert (items + [x])[1..] == [x];
    }
  }
}
