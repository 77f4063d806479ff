/**
 * The pieces of the Kotlin standard library that the core leans on, stated over
 * `string` (a sequence of Unicode scalar values, where the JVM counts UTF-16
 * code units): `contains`, `split`,
 * `joinToString`, `replace`, `toLowerCase`, `toString` of an integer,
 * `toLongOrNull`, and `BigInteger.toString(16)`.
 */
module Strings {
  import opened Wrappers

  // ---------------------------------------------------------------------------
  // Occurrences of a separator
  // ---------------------------------------------------------------------------

  /** `sep` occurs in `s` at index `i`. */
  predicate OccursAt(s: string, sep: string, i: int) {
    0 <= i && i + |sep| <= |s| && s[i..i + |sep|] == sep
  }

  /** `sep` occurs nowhere in `s`. */
  predicate Free(s: string, sep: string) {
    forall i | 0 <= i <= |s| - |sep| :: !OccursAt(s, sep, i)
  }

  /** Kotlin `s.contains(sub)`. */
  predicate Contains(s: string, sub: string) {
    !Free(s, sub)
  }

  // ---------------------------------------------------------------------------
  // split / joinToString
  // ---------------------------------------------------------------------------

  /**
   * Kotlin `s.split(sep)`: the pieces between the occurrences of `sep`, found
   * left to right without overlap; empty pieces, trailing ones included, are kept.
   */
  function Split(s: string, sep: string): (r: seq<string>)
    requires sep != []
    ensures r != []
  {
    SplitFrom(s, sep, "")
  }

  /** Split with `piece` the part of the current piece already scanned. */
  function SplitFrom(s: string, sep: string, piece: string): (r: seq<string>)
    requires sep != []
    ensures r != []
    decreases |s|
  {
    if |s| < |sep| then [piece + s]
    else if s[..|sep|] == sep then [piece] + SplitFrom(s[|sep|..], sep, "")
    else SplitFrom(s[1..], sep, piece + [s[0]])
  }

  /** The first piece starts with the piece already scanned. */
  lemma {:induction false} SplitFromPrefix(s: string, sep: string, piece: string)
    requires sep != []
    ensures piece <= SplitFrom(s, sep, piece)[0]
    decreases |s|
  {
    if |s| >= |sep| && s[..|sep|] != sep {
      SplitFromPrefix(s[1..], sep, piece + [s[0]]);
    }
  }

  /** A string that does not start with the separator's first character starts its first piece. */
  lemma SplitHead(s: string, sep: string)
    requires sep != [] && s != [] && s[0] != sep[0]
    ensures Split(s, sep)[0] != [] && Split(s, sep)[0][0] == s[0]
  {
    if |s| >= |sep| {
      assert s[..|sep|][0] == s[0];
      assert "" + [s[0]] == [s[0]];
      assert Split(s, sep) == SplitFrom(s[1..], sep, [s[0]]);
      SplitFromPrefix(s[1..], sep, [s[0]]);
    } else {
      assert "" + s == s;
    }
  }

  /** Splitting a string that does not contain the separator yields it whole. */
  lemma {:induction false} SplitFromFree(s: string, sep: string, piece: string)
    requires sep != [] && Free(s, sep)
    ensures SplitFrom(s, sep, piece) == [piece + s]
    decreases |s|
  {
    if |s| >= |sep| {
      assert !OccursAt(s, sep, 0);
      forall i | 0 <= i <= |s[1..]| - |sep| ensures !OccursAt(s[1..], sep, i) {
        assert !OccursAt(s, sep, i + 1);
        assert s[1..][i..i + |sep|] == s[i + 1..i + 1 + |sep|];
      }
      SplitFromFree(s[1..], sep, piece + [s[0]]);
      assert piece + [s[0]] + s[1..] == piece + s;
    }
  }

  /**
   * No occurrence of `sep` starts inside `x`, not even one that runs into a
   * `sep` written right after it.
   */
  predicate EndsClean(x: string, sep: string) {
    forall i | 0 <= i < |x| :: !OccursAt(x + sep, sep, i)
  }

  /** A string that is clean before `sep` does not contain `sep`. */
  lemma CleanIsFree(x: string, sep: string)
    requires sep != [] && EndsClean(x, sep)
    ensures Free(x, sep)
  {
    forall i | 0 <= i <= |x| - |sep| ensures !OccursAt(x, sep, i) {
      assert !OccursAt(x + sep, sep, i);
      assert (x + sep)[i..i + |sep|] == x[i..i + |sep|];
    }
  }

  /** Without the first character of `sep`, `x` is clean before `sep`. */
  lemma CleanWithoutFirst(x: string, sep: string)
    requires sep != [] && sep[0] !in x
    ensures EndsClean(x, sep)
  {
    forall i | 0 <= i < |x| ensures !OccursAt(x + sep, sep, i) {
      assert (x + sep)[i] == x[i];
    }
  }

  /** For a two-character separator whose characters differ, not containing it is enough. */
  lemma CleanTwo(x: string, sep: string)
    requires |sep| == 2 && sep[0] != sep[1] && Free(x, sep)
    ensures EndsClean(x, sep)
  {
    forall i | 0 <= i < |x| ensures !OccursAt(x + sep, sep, i) {
      if i + 2 <= |x| {
        assert !OccursAt(x, sep, i);
        assert (x + sep)[i..i + 2] == x[i..i + 2];
      } else {
        assert (x + sep)[i + 1] == sep[0];
      }
    }
  }

  /** The first occurrence of `sep` in `x + sep + y` is the one right after `x`. */
  lemma {:induction false} SplitFromCut(x: string, sep: string, y: string, piece: string)
    requires sep != [] && EndsClean(x, sep)
    ensures SplitFrom(x + sep + y, sep, piece) == [piece + x] + SplitFrom(y, sep, "")
    decreases |x|
  {
    var s := x + sep + y;
    if x == [] {
      assert s == sep + y;
      assert s[..|sep|] == sep;
      assert s[|sep|..] == y;
      assert piece + x == piece;
    } else {
      assert !OccursAt(x + sep, sep, 0);
      assert s[..|sep|] == (x + sep)[..|sep|];
      assert s[1..] == x[1..] + sep + y;
      forall i | 0 <= i < |x[1..]| ensures !OccursAt(x[1..] + sep, sep, i) {
        assert !OccursAt(x + sep, sep, i + 1);
        assert (x[1..] + sep)[i..] == (x + sep)[i + 1..];
        assert (x[1..] + sep)[i..i + |sep|] == (x + sep)[i + 1..i + 1 + |sep|];
      }
      SplitFromCut(x[1..], sep, y, piece + [x[0]]);
      assert piece + [x[0]] + x[1..] == piece + x;
    }
  }

  /** `Split(x + sep + y) == [x] + Split(y)` when no occurrence of `sep` starts inside `x`. */
  lemma SplitCut(x: string, sep: string, y: string)
    requires sep != [] && EndsClean(x, sep)
    ensures Split(x + sep + y, sep) == [x] + Split(y, sep)
  {
    SplitFromCut(x, sep, y, "");
    assert "" + x == x;
  }

  /** `Split(s) == [s]` when `s` does not contain the separator. */
  lemma SplitWhole(s: string, sep: string)
    requires sep != [] && Free(s, sep)
    ensures Split(s, sep) == [s]
  {
    SplitFromFree(s, sep, "");
    assert "" + s == s;
  }

  /** Kotlin `xs.joinToString(sep)`. */
  function Join(xs: seq<string>, sep: string): string {
    if |xs| == 0 then ""
    else if |xs| == 1 then xs[0]
    else xs[0] + sep + Join(xs[1..], sep)
  }

  /**
   * `split` undoes `joinToString` for a non-empty list in none of whose
   * elements an occurrence of the separator starts.
   */
  lemma {:induction false} SplitJoin(xs: seq<string>, sep: string)
    requires sep != [] && xs != []
    requires forall k | 0 <= k < |xs| :: EndsClean(xs[k], sep)
    ensures Split(Join(xs, sep), sep) == xs
  {
    if |xs| == 1 {
      CleanIsFree(xs[0], sep);
      SplitWhole(xs[0], sep);
    } else {
      SplitCut(xs[0], sep, Join(xs[1..], sep));
      SplitJoin(xs[1..], sep);
      assert [xs[0]] + xs[1..] == xs;
    }
  }

  /** Two strings free of a two-character separator stay free when no occurrence spans the seam. */
  lemma FreeConcatTwo(x: string, y: string, sep: string)
    requires |sep| == 2 && Free(x, sep) && Free(y, sep)
    requires x == [] || y == [] || x[|x| - 1] != sep[0] || y[0] != sep[1]
    ensures Free(x + y, sep)
  {
    forall i | 0 <= i <= |x + y| - 2 ensures !OccursAt(x + y, sep, i) {
      if i + 2 <= |x| {
        assert !OccursAt(x, sep, i);
        assert (x + y)[i..i + 2] == x[i..i + 2];
      } else if i >= |x| {
        assert !OccursAt(y, sep, i - |x|);
        assert (x + y)[i..i + 2] == y[i - |x|..i - |x| + 2];
      } else {
        assert (x + y)[i] == x[|x| - 1] && (x + y)[i + 1] == y[0];
      }
    }
  }

  /** Joining with a character foreign to a two-character separator creates no occurrence of it. */
  lemma {:induction false} FreeJoinTwo(xs: seq<string>, c: char, sep: string)
    requires |sep| == 2 && c != sep[0] && c != sep[1]
    requires forall k | 0 <= k < |xs| :: Free(xs[k], sep)
    ensures Free(Join(xs, [c]), sep)
  {
    if |xs| > 1 {
      FreeJoinTwo(xs[1..], c, sep);
      FreeConcatTwo(xs[0], [c], sep);
      FreeConcatTwo(xs[0] + [c], Join(xs[1..], [c]), sep);
    }
  }

  /** A character that is neither in the elements nor the separator is not in the join. */
  lemma {:induction false} NotInJoin(xs: seq<string>, sep: string, c: char)
    requires c !in sep && forall k | 0 <= k < |xs| :: c !in xs[k]
    ensures c !in Join(xs, sep)
  {
    if |xs| > 1 {
      NotInJoin(xs[1..], sep, c);
    }
  }

  /** Joining an empty list and splitting it again gives one empty piece, not an empty list. */
  lemma SplitJoinEmpty(sep: string)
    requires sep != []
    ensures Split(Join([], sep), sep) == [""]
  {
    var e: string := [];
    assert Join([], sep) == e;
    assert e + e == e;
    assert SplitFrom(e, sep, e) == [e];
  }

  // ---------------------------------------------------------------------------
  // replace / toLowerCase
  // ---------------------------------------------------------------------------

  /** Kotlin `s.indexOf(c)`, with `|s|` in place of -1 when `c` is absent. */
  function IndexOf(s: string, c: char): (r: nat)
    ensures r <= |s| && forall i | 0 <= i < r :: s[i] != c
    ensures r < |s| ==> s[r] == c
  {
    if s == [] then 0
    else if s[0] == c then 0
    else 1 + IndexOf(s[1..], c)
  }

  /** `Char.isWhitespace()` on the ASCII characters: space, tab to carriage return, and 0x1C to 0x1F. */
  predicate IsSpace(c: char) {
    c == ' ' || 9 <= c as int <= 13 || 28 <= c as int <= 31
  }

  /** Neither starts nor ends with whitespace. */
  predicate Trimmed(s: string) {
    s == [] || (!IsSpace(s[0]) && !IsSpace(s[|s| - 1]))
  }

  /** Kotlin `s.trim()`: leading and trailing whitespace removed. */
  function Trim(s: string): (r: string)
    ensures Trimmed(r)
    ensures Trimmed(s) ==> r == s
  {
    if s == [] then []
    else if IsSpace(s[0]) then Trim(s[1..])
    else if IsSpace(s[|s| - 1]) then Trim(s[..|s| - 1])
    else s
  }

  /** `r` is `s[i..j]`, and everything of `s` before `i` and from `j` on is whitespace. */
  predicate StripsTo(s: string, r: string, i: int, j: int) {
    0 <= i <= j <= |s| && r == s[i..j] &&
    (forall k | 0 <= k < i :: IsSpace(s[k])) && (forall k | j <= k < |s| :: IsSpace(s[k]))
  }

  /** What trim keeps is a slice of the text, with only whitespace cut from either end. */
  lemma {:induction false} TrimStripsEnds(s: string)
    ensures exists i, j :: StripsTo(s, Trim(s), i, j)
  {
    if s == [] {
      assert StripsTo(s, Trim(s), 0, 0);
    } else if IsSpace(s[0]) {
      var tail := s[1..];
      TrimStripsEnds(tail);
      var i, j :| StripsTo(tail, Trim(tail), i, j);
      assert Trim(s) == s[i + 1..j + 1] by {
        assert tail[i..j] == s[i + 1..j + 1];
      }
      forall k | 0 <= k < i + 1 ensures IsSpace(s[k]) {
        if k > 0 {
          assert s[k] == tail[k - 1];
        }
      }
      forall k | j + 1 <= k < |s| ensures IsSpace(s[k]) {
        assert s[k] == tail[k - 1];
      }
      assert StripsTo(s, Trim(s), i + 1, j + 1);
    } else if IsSpace(s[|s| - 1]) {
      var front := s[..|s| - 1];
      TrimStripsEnds(front);
      var i, j :| StripsTo(front, Trim(front), i, j);
      assert Trim(s) == s[i..j] by {
        assert front[i..j] == s[i..j];
      }
      forall k | j <= k < |s| ensures IsSpace(s[k]) {
        if k < |front| {
          assert s[k] == front[k];
        }
      }
      assert StripsTo(s, Trim(s), i, j);
    } else {
      assert StripsTo(s, Trim(s), 0, |s|);
    }
  }

  /** Kotlin `s.replace(c.toString(), "")`: every occurrence of `c` removed. */
  function Without(s: string, c: char): (r: string)
    ensures c !in r
    ensures c !in s ==> r == s
  {
    if s == [] then []
    else (if s[0] == c then [] else [s[0]]) + Without(s[1..], c)
  }

  /** Nothing but `c` is removed: every other character keeps its count. */
  lemma {:induction false} WithoutCounts(s: string, c: char)
    ensures multiset(Without(s, c)) == multiset(s)[c := 0]
  {
    if s != [] {
      assert s == [s[0]] + s[1..];
      WithoutCounts(s[1..], c);
    }
  }

  /** U+212A KELVIN SIGN, which Java lower-cases to 'k'. */
  const KELVIN: char := 0x212A as char

  /**
   * `Char.toLowerCase()` on the ASCII letters and the Kelvin sign; every
   * other character is kept.
   */
  function LowerChar(c: char): char {
    if 'A' <= c <= 'Z' then (c as int + 32) as char
    else if c == KELVIN then 'k'
    else c
  }

  /** `String.toLowerCase()`, character by character. */
  function ToLower(s: string): string {
    seq(|s|, i requires 0 <= i < |s| => LowerChar(s[i]))
  }

  /** The strings that equal "ok" ignoring case: an 'o' or 'O', then a 'k', 'K' or Kelvin sign. */
  lemma LowerIsOk(s: string)
    ensures ToLower(s) == "ok" <==>
              |s| == 2 && (s[0] == 'o' || s[0] == 'O') && (s[1] == 'k' || s[1] == 'K' || s[1] == KELVIN)
  {
    if ToLower(s) == "ok" {
      assert |s| == 2;
      assert ToLower(s)[0] == LowerChar(s[0]) && ToLower(s)[1] == LowerChar(s[1]);
    }
    if |s| == 2 && (s[0] == 'o' || s[0] == 'O') && (s[1] == 'k' || s[1] == 'K' || s[1] == KELVIN) {
      assert ToLower(s)[0] == 'o' && ToLower(s)[1] == 'k';
    }
  }

  // ---------------------------------------------------------------------------
  // Decimal numbers: toString / toLongOrNull
  // ---------------------------------------------------------------------------

  predicate IsDigit(c: char) {
    '0' <= c <= '9'
  }

  function DigitChar(d: int): char
    requires 0 <= d < 10
  {
    ('0' as int + d) as char
  }

  /** `n.toString()` for an integer: optional minus sign, no leading zeros. */
  function Decimal(n: int): string
    decreases if n < 0 then 1 - n else n
  {
    if n < 0 then "-" + Decimal(-n)
    else if n < 10 then [DigitChar(n)]
    else Decimal(n / 10) + [DigitChar(n % 10)]
  }

  /** The value of a non-empty run of ASCII digits, most significant first. */
  function DigitsValue(s: string): Option<nat> {
    if s == [] || !IsDigit(s[|s| - 1]) then None
    else if |s| == 1 then Some(s[0] as int - '0' as int)
    else
      match DigitsValue(s[..|s| - 1])
      case None => None
      case Some(p) => Some(p * 10 + (s[|s| - 1] as int - '0' as int))
  }

  const LONG_MIN: int := -0x8000_0000_0000_0000
  const LONG_MAX: int := 0x7fff_ffff_ffff_ffff
  const INT_MIN: int := -0x8000_0000
  const INT_MAX: int := 0x7fff_ffff

  /**
   * Kotlin `Long` arithmetic: two's complement wrap-around to 64 bits. A value
   * in range is kept; one above the range comes back lower.
   */
  function Wrap(x: int): (r: int)
    ensures LONG_MIN <= r <= LONG_MAX
    ensures LONG_MIN <= x <= LONG_MAX ==> r == x
    ensures x >= LONG_MIN ==> r <= x
  {
    (x - LONG_MIN) % 0x1_0000_0000_0000_0000 + LONG_MIN
  }

  /** An optional sign, at least one digit, and a value within `lo..hi`. */
  function ParseBounded(s: string, lo: int, hi: int): Option<int> {
    if s == [] then None
    else
      var body := if s[0] == '-' || s[0] == '+' then s[1..] else s;
      match DigitsValue(body)
      case None => None
      case Some(m) =>
        var v: int := if s[0] == '-' then -(m as int) else m;
        if lo <= v <= hi then Some(v) else None
  }

  /** Kotlin `String.toLongOrNull()`. */
  function ParseLong(s: string): (r: Option<int>)
    ensures r.Some? ==> LONG_MIN <= r.value <= LONG_MAX
  {
    ParseBounded(s, LONG_MIN, LONG_MAX)
  }

  /** Kotlin `String.toInt()`; None where it throws NumberFormatException. */
  function ParseInt(s: string): Option<int> {
    ParseBounded(s, INT_MIN, INT_MAX)
  }

  /** The decimal rendering of a natural number is a run of digits with that value. */
  lemma {:induction false} DecimalDigits(n: nat)
    ensures Decimal(n) != [] && IsDigit(Decimal(n)[0])
    ensures DigitsValue(Decimal(n)) == Some(n)
  {
    if n >= 10 {
      DecimalDigits(n / 10);
      var d := Decimal(n / 10);
      assert Decimal(n) == d + [DigitChar(n % 10)];
      assert Decimal(n)[..|Decimal(n)| - 1] == d;
    }
  }

  /** Parsing reads back every integer of the range from its decimal rendering. */
  lemma ParseDecimal(n: int, lo: int, hi: int)
    requires lo <= n <= hi
    ensures ParseBounded(Decimal(n), lo, hi) == Some(n)
  {
    if n < 0 {
      DecimalDigits(-n);
      ParseSigned(Decimal(-n), -n, lo, hi);
    } else {
      DecimalDigits(n);
    }
  }

  lemma ParseSigned(s: string, m: nat, lo: int, hi: int)
    requires DigitsValue(s) == Some(m) && lo <= -(m as int) <= hi
    ensures ParseBounded("-" + s, lo, hi) == Some(-(m as int))
  {
    assert ("-" + s)[0] == '-' && ("-" + s)[1..] == s;
  }

  // ---------------------------------------------------------------------------
  // Hexadecimal: BigInteger.toString(16) and "%040x"
  // ---------------------------------------------------------------------------

  predicate IsHexChar(c: char) {
    '0' <= c <= '9' || 'a' <= c <= 'f'
  }

  predicate IsHex(s: string) {
    forall i | 0 <= i < |s| :: IsHexChar(s[i])
  }

  function HexChar(d: int): char
    requires 0 <= d < 16
  {
    if d < 10 then ('0' as int + d) as char else ('a' as int + d - 10) as char
  }

  function HexCharValue(c: char): int
    requires IsHexChar(c)
  {
    if c <= '9' then c as int - '0' as int else c as int - 'a' as int + 10
  }

  /** `BigInteger.toString(16)` of a non-negative value: lower case, no leading zeros, "0" for zero. */
  function Hex(n: nat): string {
    if n < 16 then [HexChar(n)] else Hex(n / 16) + [HexChar(n % 16)]
  }

  /** The value of a string of hexadecimal digits, most significant first. */
  function HexValue(s: string): nat
    requires IsHex(s)
  {
    if s == [] then 0 else HexValue(s[..|s| - 1]) * 16 + HexCharValue(s[|s| - 1])
  }

  /** `c` repeated `k` times. */
  function Repeat(c: char, k: nat): (r: string)
    ensures |r| == k && forall i | 0 <= i < k :: r[i] == c
  {
    seq(k, _ => c)
  }

  /** Left-padding with `c` to at least `width` characters, as `String.format` does for "%0<width>x". */
  function PadLeft(s: string, width: nat, c: char): string {
    if |s| >= width then s else Repeat(c, width - |s|) + s
  }

  function Pow(b: nat, k: nat): nat {
    if k == 0 then 1 else b * Pow(b, k - 1)
  }

  /** `Hex` renders exactly its argument. */
  lemma {:induction false} HexRoundTrip(n: nat)
    ensures IsHex(Hex(n)) && HexValue(Hex(n)) == n
  {
    if n >= 16 {
      HexRoundTrip(n / 16);
      var h := Hex(n);
      assert h == Hex(n / 16) + [HexChar(n % 16)];
      assert h[..|h| - 1] == Hex(n / 16);
    }
  }

  /** Leading zeros do not change a hexadecimal value. */
  lemma {:induction false} HexValueLeadingZeros(k: nat, s: string)
    requires IsHex(s)
    ensures IsHex(Repeat('0', k) + s) && HexValue(Repeat('0', k) + s) == HexValue(s)
    decreases |s|
  {
    var z := Repeat('0', k);
    if s == [] {
      assert z + s == z;
      HexValueZeros(k);
    } else {
      var t := z + s;
      HexValueLeadingZeros(k, s[..|s| - 1]);
      assert t[..|t| - 1] == z + s[..|s| - 1];
    }
  }

  lemma {:induction false} HexValueZeros(k: nat)
    ensures IsHex(Repeat('0', k)) && HexValue(Repeat('0', k)) == 0
  {
    if k > 0 {
      HexValueZeros(k - 1);
      assert Repeat('0', k)[..k - 1] == Repeat('0', k - 1);
    }
  }

  /** For k >= 1, `Hex(n)` has more than `k` digits exactly when `n >= 16^k`. */
  lemma {:induction false} HexLength(n: nat, k: nat)
    requires k >= 1
    ensures |Hex(n)| > k <==> n >= Pow(16, k)
    decreases k
  {
    if n >= 16 {
      assert |Hex(n)| == |Hex(n / 16)| + 1;
      if k == 1 {
        HexLengthPositive(n / 16);
      } else {
        HexLength(n / 16, k - 1);
        assert n / 16 >= Pow(16, k - 1) <==> n >= 16 * Pow(16, k - 1);
      }
    } else {
      PowAtLeast(k);
    }
  }

  /** `Hex` writes no leading zero: its first digit is '0' only for 0 itself. */
  lemma {:induction false} HexNoLeadingZero(n: nat)
    ensures Hex(n)[0] == '0' <==> n == 0
  {
    if n >= 16 {
      HexNoLeadingZero(n / 16);
      HexLengthPositive(n / 16);
      assert Hex(n)[0] == Hex(n / 16)[0];
    }
  }

  lemma HexLengthPositive(n: nat)
    ensures |Hex(n)| >= 1
  {
  }

  lemma {:induction false} PowAtLeast(k: nat)
    requires k >= 1
    ensures Pow(16, k) >= 16
  {
    if k > 1 {
      PowAtLeast(k - 1);
    }
  }
}
