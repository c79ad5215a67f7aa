/**
 * The pieces of java.lang.String, java.lang.Integer and java.lang.Boolean
 * that the connector relies on: `split` with a one-character separator,
 * `trim`, `strip`, `toUpperCase`, `compareTo`, `Integer.parseInt`,
 * `String.valueOf(int)`, `Boolean.parseBoolean` and 32-bit `int`
 * arithmetic.  Characters are Unicode scalar values.
 */
module JavaStrings {
  import opened Wrappers

  type int32 = x: int | -0x8000_0000 <= x < 0x8000_0000

  /** The 32-bit two's-complement value that Java's `int` arithmetic produces for `x`. */
  function Wrap32(x: int): (r: int32)
    ensures -0x8000_0000 <= x < 0x8000_0000 ==> r == x
    ensures (r - x) % 0x1_0000_0000 == 0
  {
    (x + 0x8000_0000) % 0x1_0000_0000 - 0x8000_0000
  }

  // ---------------------------------------------------------------------
  // Splitting and joining
  // ---------------------------------------------------------------------

  /** The pieces of `s` between occurrences of `c`, keeping every empty piece. */
  function SplitAll(s: string, c: char): (r: seq<string>)
    ensures |r| >= 1
    decreases |s|
  {
    if |s| == 0 then [""]
    else if s[0] == c then [""] + SplitAll(s[1..], c)
    else
      var rest := SplitAll(s[1..], c);
      [[s[0]] + rest[0]] + rest[1..]
  }

  /** `pieces` glued together with `sep` between neighbours. */
  function Join(pieces: seq<string>, sep: string): string
  {
    if |pieces| == 0 then ""
    else if |pieces| == 1 then pieces[0]
    else pieces[0] + sep + Join(pieces[1..], sep)
  }

  /** `Collectors.joining(delimiter, prefix, suffix)`. */
  function Joining(items: seq<string>, delimiter: string, prefix: string, suffix: string): string
  {
    prefix + Join(items, delimiter) + suffix
  }

  /** `pieces` with every trailing empty string removed. */
  function DropTrailingEmpty(pieces: seq<string>): (r: seq<string>)
    ensures r <= pieces
    ensures forall i :: |r| <= i < |pieces| ==> pieces[i] == ""
    ensures r == [] || r[|r| - 1] != ""
    decreases |pieces|
  {
    if |pieces| > 0 && pieces[|pieces| - 1] == "" then DropTrailingEmpty(pieces[..|pieces| - 1])
    else pieces
  }

  /**
   * `s.split(c)` for a separator that is not a regular-expression
   * metacharacter: when `c` does not occur the result is `s` itself
   * (even when `s` is empty); otherwise every piece is kept except the
   * trailing empty ones.
   */
  function Split(s: string, c: char): (r: seq<string>)
  {
    if c !in s then [s] else DropTrailingEmpty(SplitAll(s, c))
  }

  lemma {:induction false} SplitAllPiecesFree(s: string, c: char)
    ensures forall i :: 0 <= i < |SplitAll(s, c)| ==> c !in SplitAll(s, c)[i]
    decreases |s|
  {
    if |s| > 0 {
      SplitAllPiecesFree(s[1..], c);
    }
  }

  lemma {:induction false} JoinSplitAll(s: string, c: char)
    ensures Join(SplitAll(s, c), [c]) == s
    decreases |s|
  {
    if |s| > 0 {
      var rest := SplitAll(s[1..], c);
      JoinSplitAll(s[1..], c);
      if s[0] == c {
        assert SplitAll(s, c) == [""] + rest;
        assert ([""] + rest)[1..] == rest;
        assert s == [c] + s[1..];
      } else {
        var r := [[s[0]] + rest[0]] + rest[1..];
        assert SplitAll(s, c) == r;
        assert r[1..] == rest[1..];
        if |rest| == 1 {
          assert s == [s[0]] + s[1..];
        } else {
          assert Join(rest, [c]) == rest[0] + [c] + Join(rest[1..], [c]);
          assert s == [s[0]] + s[1..];
        }
      }
    }
  }

  /** Splitting inverts joining when no piece contains the separator. */
  lemma {:induction false} SplitAllJoin(pieces: seq<string>, c: char)
    requires |pieces| >= 1
    requires forall i :: 0 <= i < |pieces| ==> c !in pieces[i]
    ensures SplitAll(Join(pieces, [c]), c) == pieces
    decreases |pieces|, |pieces[0]|
  {
    if |pieces[0]| > 0 {
      var p := pieces[0];
      var tail := [p[1..]] + pieces[1..];
      assert tail[0] == p[1..];
      forall i | 0 <= i < |tail| ensures c !in tail[i] {
        if i > 0 { assert tail[i] == pieces[i]; }
      }
      SplitAllJoin(tail, c);
      var s := Join(pieces, [c]);
      if |pieces| == 1 {
        assert s == p;
        assert Join(tail, [c]) == p[1..];
      } else {
        assert s == p + [c] + Join(pieces[1..], [c]);
        assert tail[1..] == pieces[1..];
        assert Join(tail, [c]) == p[1..] + [c] + Join(pieces[1..], [c]);
        assert s[1..] == Join(tail, [c]);
      }
      assert s[0] == p[0] && s[1..] == Join(tail, [c]);
      assert p == [p[0]] + p[1..];
    } else if |pieces| > 1 {
      var s := Join(pieces, [c]);
      assert s == pieces[0] + [c] + Join(pieces[1..], [c]);
      assert s[0] == c && s[1..] == Join(pieces[1..], [c]);
      SplitAllJoin(pieces[1..], c);
      assert pieces == [""] + pieces[1..];
    }
  }

  /**
   * With two pieces that are free of `c` and a non-empty second piece,
   * `split` gives back the two pieces: the shape `updateHostNameAndPort`
   * accepts.
   */
  lemma SplitPair(a: string, b: string, c: char)
    requires c !in a && c !in b && b != ""
    ensures Split(a + [c] + b, c) == [a, b]
  {
    var s := a + [c] + b;
    assert s[|a|] == c;
    assert Join([a, b], [c]) == s;
    SplitAllJoin([a, b], c);
  }

  // ---------------------------------------------------------------------
  // Whitespace and case
  // ---------------------------------------------------------------------

  /** `String.trim` removes the characters at or below U+0020 from both ends. */
  predicate IsTrimmable(ch: char) { ch <= ' ' }

  /**
   * `Character.isWhitespace`: the space, line and paragraph separators of
   * Unicode except the no-break spaces U+00A0, U+2007 and U+202F, plus
   * the controls U+0009-U+000D and U+001C-U+001F.
   */
  predicate IsJavaWhitespace(ch: char)
  {
    || ('\U{0009}' <= ch <= '\U{000D}')
    || ('\U{001C}' <= ch <= ' ')
    || ch == '\U{1680}'
    || ('\U{2000}' <= ch <= '\U{200A}' && ch != '\U{2007}')
    || ch == '\U{2028}' || ch == '\U{2029}'
    || ch == '\U{205F}' || ch == '\U{3000}'
  }

  /** Which characters a trimming operation removes. */
  datatype Blank = Trimmable | JavaWhitespace

  predicate IsBlank(b: Blank, ch: char)
  {
    match b
    case Trimmable => IsTrimmable(ch)
    case JavaWhitespace => IsJavaWhitespace(ch)
  }

  /** `s` without its leading blanks. */
  function TrimStart(s: string, b: Blank): string
    decreases |s|
  {
    if |s| > 0 && IsBlank(b, s[0]) then TrimStart(s[1..], b) else s
  }

  /** `s` without its trailing blanks. */
  function TrimEnd(s: string, b: Blank): string
    decreases |s|
  {
    if |s| > 0 && IsBlank(b, s[|s| - 1]) then TrimEnd(s[..|s| - 1], b) else s
  }

  /** `TrimStart` drops a run of blanks from the front and stops at a non-blank. */
  lemma {:induction false} TrimStartShape(s: string, b: Blank)
    ensures var r := TrimStart(s, b);
      && |r| <= |s| && r == s[|s| - |r|..]
      && (r == [] || !IsBlank(b, r[0]))
      && (forall i :: 0 <= i < |s| - |r| ==> IsBlank(b, s[i]))
    decreases |s|
  {
    if |s| > 0 && IsBlank(b, s[0]) {
      TrimStartShape(s[1..], b);
      var r := TrimStart(s, b);
      forall i | 0 <= i < |s| - |r| ensures IsBlank(b, s[i]) {
        if i > 0 {
          assert s[i] == s[1..][i - 1];
        }
      }
    }
  }

  /** `TrimEnd` drops a run of blanks from the back and stops at a non-blank. */
  lemma {:induction false} TrimEndShape(s: string, b: Blank)
    ensures var r := TrimEnd(s, b);
      && r <= s
      && (r == [] || !IsBlank(b, r[|r| - 1]))
      && (forall i :: |r| <= i < |s| ==> IsBlank(b, s[i]))
    decreases |s|
  {
    if |s| > 0 && IsBlank(b, s[|s| - 1]) {
      TrimEndShape(s[..|s| - 1], b);
    }
  }

  /** `String.trim`. */
  function Trim(s: string): string
  {
    TrimEnd(TrimStart(s, Trimmable), Trimmable)
  }

  /** `String.strip`. */
  function Strip(s: string): string
  {
    TrimEnd(TrimStart(s, JavaWhitespace), JavaWhitespace)
  }

  /** `toUpperCase` on the Latin letters; other characters are kept. */
  function ToUpperAscii(s: string): (r: string)
    ensures |r| == |s|
  {
    seq(|s|, i requires 0 <= i < |s| => if 'a' <= s[i] <= 'z' then (s[i] as int - 32) as char else s[i])
  }

  function ToLowerAscii(s: string): (r: string)
    ensures |r| == |s|
  {
    seq(|s|, i requires 0 <= i < |s| => if 'A' <= s[i] <= 'Z' then (s[i] as int + 32) as char else s[i])
  }

  /** `Boolean.parseBoolean`: true exactly for "true" in any letter case. */
  function ParseBoolean(s: string): bool
  {
    ToLowerAscii(s) == "true"
  }

  // ---------------------------------------------------------------------
  // Decimal integers
  // ---------------------------------------------------------------------

  predicate IsDigit(ch: char) { '0' <= ch <= '9' }

  function DigitsValue(s: string): nat
    requires forall i :: 0 <= i < |s| ==> IsDigit(s[i])
  {
    if |s| == 0 then 0
    else
      assert IsDigit(s[|s| - 1]);
      10 * DigitsValue(s[..|s| - 1]) + (s[|s| - 1] as int - '0' as int)
  }

  /**
   * `Integer.parseInt(s)`: an optional sign followed by at least one
   * decimal digit, with the value inside the 32-bit range.  `None` is the
   * `NumberFormatException`.
   */
  function ParseInt(s: string): (r: Option<int32>)
  {
    if |s| == 0 then None
    else
      var negative := s[0] == '-';
      var digits := if s[0] == '-' || s[0] == '+' then s[1..] else s;
      if |digits| == 0 || exists i :: 0 <= i < |digits| && !IsDigit(digits[i]) then None
      else
        var magnitude: int := DigitsValue(digits);
        var v := if negative then -magnitude else magnitude;
        if -0x8000_0000 <= v < 0x8000_0000 then Some(v) else None
  }

  /** The digits of `n` without leading zeros ("0" for zero). */
  function NatDigits(n: nat): (r: string)
    ensures |r| >= 1
    ensures forall i :: 0 <= i < |r| ==> IsDigit(r[i])
  {
    if n < 10 then [('0' as int + n) as char]
    else NatDigits(n / 10) + [('0' as int + n % 10) as char]
  }

  /** `String.valueOf(int)`. */
  function DecimalString(n: int): string
  {
    if n < 0 then "-" + NatDigits(-n) else NatDigits(n)
  }

  lemma {:induction false} NatDigitsValue(n: nat)
    ensures DigitsValue(NatDigits(n)) == n
  {
    if n >= 10 {
      var d := NatDigits(n);
      NatDigitsValue(n / 10);
      assert d[..|d| - 1] == NatDigits(n / 10);
    }
  }

  /** `Integer.parseInt` reads back what `String.valueOf` wrote. */
  lemma ParseDecimalString(n: int32)
    ensures ParseInt(DecimalString(n)) == Some(n)
  {
    var s := DecimalString(n);
    if n < 0 {
      NatDigitsValue(-(n as int));
      assert s[0] == '-' && s[1..] == NatDigits(-(n as int));
    } else {
      NatDigitsValue(n);
      assert s[0] != '-' && s[0] != '+';
    }
  }

  // ---------------------------------------------------------------------
  // Ordering
  // ---------------------------------------------------------------------

  /** `a.compareTo(b) <= 0`: lexicographic by character, a prefix first. */
  predicate AtMost(a: string, b: string)
    decreases |a|
  {
    if |a| == 0 then true
    else if |b| == 0 then false
    else if a[0] != b[0] then a[0] < b[0]
    else AtMost(a[1..], b[1..])
  }

  lemma {:induction false} AtMostTotal(a: string, b: string)
    ensures AtMost(a, b) || AtMost(b, a)
    decreases |a|
  {
    if |a| > 0 && |b| > 0 && a[0] == b[0] {
      AtMostTotal(a[1..], b[1..]);
    }
  }

  lemma {:induction false} AtMostTransitive(a: string, b: string, c: string)
    requires AtMost(a, b) && AtMost(b, c)
    ensures AtMost(a, c)
    decreases |a|
  {
    if |a| > 0 && |b| > 0 && |c| > 0 && a[0] == b[0] && b[0] == c[0] {
      AtMostTransitive(a[1..], b[1..], c[1..]);
    }
  }

  lemma {:induction false} AtMostAntisymmetric(a: string, b: string)
    requires AtMost(a, b) && AtMost(b, a)
    ensures a == b
    decreases |a|
  {
    if |a| > 0 {
      AtMostAntisymmetric(a[1..], b[1..]);
      assert a == [a[0]] + a[1..] && b == [b[0]] + b[1..];
    }
  }

  predicate Sorted(s: seq<string>)
  {
    forall i, j :: 0 <= i < j < |s| ==> AtMost(s[i], s[j])
  }
}
