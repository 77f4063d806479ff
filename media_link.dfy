/**
 * The media shortcode codec of InstagramBot (bot/InstagramBot.kt,
 * getMediaIdFromLink and getLinkFromMediaId): a media id written in base 64,
 * most significant digit first, over the alphabet A-Z, a-z, 0-9 and two
 * punctuation characters.
 *
 * The map literal of the source lists '-' twice, for 62 and for 63; a Kotlin
 * `mapOf` keeps the last value of a repeated key, so '-' is 63 and no
 * character is 62. `AsWritten` is that alphabet; `Corrected` is Instagram's
 * ('-' is 62, '_' is 63). Both functions are parameterized by the alphabet.
 * A thrown exception is a `Failure` naming it.
 */
module MediaLink {
  import opened Wrappers
  import opened Strings

  datatype Alphabet = AsWritten | Corrected

  /** The 62 letters and digits, in the order of their values. */
  function Letter(d: int): char
    requires 0 <= d < 62
  {
    if d < 26 then ('A' as int + d) as char
    else if d < 52 then ('a' as int + (d - 26)) as char
    else ('0' as int + (d - 52)) as char
  }

  /** `alphabet.getValue(c)`: None where it throws NoSuchElementException. */
  function DigitOf(a: Alphabet, c: char): Option<int> {
    if 'A' <= c <= 'Z' then Some(c as int - 'A' as int)
    else if 'a' <= c <= 'z' then Some(c as int - 'a' as int + 26)
    else if '0' <= c <= '9' then Some(c as int - '0' as int + 52)
    else if c == '-' then Some(if a == AsWritten then 63 else 62)
    else if c == '_' && a == Corrected then Some(63)
    else None
  }

  /** `alphabet.filterValues { it == d }.keys.first()`: None where no key has the value. */
  function CharOf(a: Alphabet, d: int): Option<char>
    requires 0 <= d < 64
  {
    if d < 62 then Some(Letter(d))
    else if a == Corrected then Some(if d == 62 then '-' else '_')
    else if d == 63 then Some('-')
    else None
  }

  /** Reading back the character of a digit gives the digit. */
  lemma CharThenDigit(a: Alphabet, d: int)
    requires 0 <= d < 64 && CharOf(a, d).Some?
    ensures DigitOf(a, CharOf(a, d).value) == Some(d)
  {
  }

  /** Writing the digit of a character gives the character back. */
  lemma DigitThenChar(a: Alphabet, c: char)
    requires DigitOf(a, c).Some?
    ensures 0 <= DigitOf(a, c).value < 64 && CharOf(a, DigitOf(a, c).value) == Some(c)
  {
  }

  /** The corrected alphabet writes every digit; the one as written misses exactly 62. */
  lemma CharDefined(a: Alphabet, d: int)
    requires 0 <= d < 64
    ensures CharOf(a, d).None? <==> a == AsWritten && d == 62
  {
  }

  // ---------------------------------------------------------------------------
  // Encoding
  // ---------------------------------------------------------------------------

  /** The base-64 digits of an id, most significant first; none for an id of 0 or less. */
  function Digits(id: int): (r: seq<int>)
    ensures forall k | 0 <= k < |r| :: 0 <= r[k] < 64
    decreases id
  {
    if id <= 0 then [] else Digits(id / 64) + [id % 64]
  }

  /** The shortcode of an id; None where a digit has no character. */
  function Encode(a: Alphabet, id: int): Option<string>
    decreases id
  {
    if id <= 0 then Some("")
    else
      match Encode(a, id / 64)
      case None => None
      case Some(p) => if CharOf(a, id % 64).None? then None else Some(p + [CharOf(a, id % 64).value])
  }

  /** The shortcode exists exactly when every digit has a character, and spells the digits. */
  lemma {:induction false} EncodeSpellsDigits(a: Alphabet, id: int)
    ensures Encode(a, id).Some? <==> forall k | 0 <= k < |Digits(id)| :: CharOf(a, Digits(id)[k]).Some?
    ensures Encode(a, id).Some? ==>
              |Encode(a, id).value| == |Digits(id)| &&
              forall k | 0 <= k < |Digits(id)| :: Encode(a, id).value[k] == CharOf(a, Digits(id)[k]).value
    decreases id
  {
    if id > 0 {
      EncodeSpellsDigits(a, id / 64);
      var front := Digits(id / 64);
      var ds := Digits(id);
      assert ds == front + [id % 64];
      assert ds[|ds| - 1] == id % 64;
      assert forall k | 0 <= k < |ds| - 1 :: ds[k] == front[k];
      if Encode(a, id / 64).None? {
        var k :| 0 <= k < |front| && CharOf(a, front[k]).None?;
        assert ds[k] == front[k] && CharOf(a, ds[k]).None?;
        assert Encode(a, id).None?;
      } else if CharOf(a, id % 64).None? {
        assert CharOf(a, ds[|ds| - 1]).None?;
        assert Encode(a, id).None?;
      } else {
        var code := Encode(a, id).value;
        assert code == Encode(a, id / 64).value + [CharOf(a, id % 64).value];
        forall k | 0 <= k < |ds| ensures CharOf(a, ds[k]).Some? && code[k] == CharOf(a, ds[k]).value {
          if k < |ds| - 1 {
            assert ds[k] == front[k];
          }
        }
      }
    }
  }

  /** Under the corrected alphabet every id has a shortcode. */
  lemma CorrectedEncodesAll(id: int)
    ensures Encode(Corrected, id).Some?
  {
    EncodeSpellsDigits(Corrected, id);
  }

  /** Under the alphabet as written an id has a shortcode exactly when no base-64 digit of it is 62. */
  lemma AsWrittenEncodes(id: int)
    ensures Encode(AsWritten, id).Some? <==> 62 !in Digits(id)
  {
    EncodeSpellsDigits(AsWritten, id);
    var ds := Digits(id);
    if 62 in ds {
      var k :| 0 <= k < |ds| && ds[k] == 62;
      assert CharOf(AsWritten, ds[k]).None?;
    }
  }

  /** Kotlin `reversed()`. */
  function Reverse(s: string): (r: string)
    ensures |r| == |s| && forall k | 0 <= k < |s| :: r[k] == s[|s| - 1 - k]
  {
    if s == [] then [] else [s[|s| - 1]] + Reverse(s[..|s| - 1])
  }

  /** A shortcode with the text that follows it, or None when there is no shortcode. */
  function Then(code: Option<string>, rest: string): Option<string> {
    if code.None? then None else Some(code.value + rest)
  }

  lemma ThenNothing(code: Option<string>)
    ensures Then(code, "") == code
  {
    if code.Some? {
      assert code.value + "" == code.value;
    }
  }

  lemma ThenStep(code: Option<string>, c: char, rest: string)
    ensures Then(code, [c] + rest) == Then(Then(code, [c]), rest)
  {
    if code.Some? {
      assert code.value + ([c] + rest) == code.value + [c] + rest;
    }
  }

  const LINK_PREFIX: string := "https://instagram.com/p/"

  /** getLinkFromMediaId: `toLong` of the id, then the link around its shortcode. */
  function LinkFromMediaId(a: Alphabet, mediaId: string): (r: Result<string>)
    ensures ParseLong(mediaId).None? ==> r == Failure("NumberFormatException")
    ensures ParseLong(mediaId).Some? && Encode(a, ParseLong(mediaId).value).None? ==> r == Failure("NoSuchElementException")
    ensures r.Success? ==> LINK_PREFIX <= r.value && r.value[|r.value| - 1] == '/'
  {
    match ParseLong(mediaId)
    case None => Failure("NumberFormatException")
    case Some(id) =>
      match Encode(a, id)
      case None => Failure("NoSuchElementException")
      case Some(code) => Success(LINK_PREFIX + code + "/")
  }

  /**
   * getLinkFromMediaId: the loop takes the digits least significant first,
   * appending their characters, and reverses the text at the end.
   */
  method GetLinkFromMediaId(a: Alphabet, mediaId: string) returns (r: Result<string>)
    ensures r == LinkFromMediaId(a, mediaId)
  {
    var parsed := ParseLong(mediaId);
    if parsed.None? {
      return Failure("NumberFormatException");
    }
    var id := parsed.value;
    var result := "";
    ThenNothing(Encode(a, id));
    while id > 0
      invariant Then(Encode(a, id), Reverse(result)) == Encode(a, parsed.value)
      decreases id
    {
      var digit := id % 64;
      ghost var before := id;
      id := id / 64;
      var c := CharOf(a, digit);
      if c.None? {
        return Failure("NoSuchElementException");
      }
      assert Reverse(result + [c.value]) == [c.value] + Reverse(result) by {
        assert (result + [c.value])[..|result|] == result;
      }
      ThenStep(Encode(a, id), c.value, Reverse(result));
      result := result + [c.value];
    }
    assert Encode(a, id) == Some("") && "" + Reverse(result) == Reverse(result);
    return Success(LINK_PREFIX + Reverse(result) + "/");
  }

  // ---------------------------------------------------------------------------
  // Decoding
  // ---------------------------------------------------------------------------

  /** The Long value of a shortcode, digit by digit with wrap-around; None at an unknown character. */
  function Decode(a: Alphabet, code: string): (r: Option<int>)
    ensures r.Some? ==> LONG_MIN <= r.value <= LONG_MAX
    decreases |code|
  {
    if code == [] then Some(0)
    else
      match Decode(a, code[..|code| - 1])
      case None => None
      case Some(p) =>
        match DigitOf(a, code[|code| - 1])
        case None => None
        case Some(d) => Some(Wrap(p * 64 + d))
  }

  /** Once a prefix has an unknown character, so has the whole shortcode. */
  lemma {:induction false} DecodeStuck(a: Alphabet, code: string, j: nat)
    requires j <= |code| && Decode(a, code[..j]).None?
    ensures Decode(a, code).None?
    decreases |code| - j
  {
    if j < |code| {
      assert code[..j + 1][..j] == code[..j];
      DecodeStuck(a, code, j + 1);
    } else {
      assert code[..j] == code;
    }
  }

  /** Decoding reads back every id from 0 to LONG_MAX from its shortcode. */
  lemma {:induction false} DecodeEncode(a: Alphabet, id: int)
    requires 0 <= id <= LONG_MAX && Encode(a, id).Some?
    ensures Decode(a, Encode(a, id).value) == Some(id)
    decreases id
  {
    if id > 0 {
      var p, d := id / 64, id % 64;
      var front := Encode(a, p).value;
      var c := CharOf(a, d).value;
      var code := front + [c];
      assert Encode(a, id).value == code;
      assert Decode(a, front) == Some(p) by { DecodeEncode(a, p); }
      assert DigitOf(a, c) == Some(d) by { CharThenDigit(a, d); }
      assert code[..|code| - 1] == front && code[|code| - 1] == c;
      assert Wrap(p * 64 + d) == id by { assert p * 64 + d == id; }
    }
  }

  /** Kotlin `List<String>.toString()`: the elements joined by ", " inside brackets. */
  function ListText(xs: seq<string>): string {
    "[" + Join(xs, ", ") + "]"
  }

  /** Kotlin `removePrefix`. */
  function RemovePrefix(s: string, p: string): (r: string)
    ensures p <= s ==> p + r == s
    ensures !(p <= s) ==> r == s
  {
    if p <= s then s[|p|..] else s
  }

  /** Kotlin `removeSuffix`. */
  function RemoveSuffix(s: string, p: string): (r: string)
    ensures |p| <= |s| && s[|s| - |p|..] == p ==> r + p == s
    ensures !(|p| <= |s| && s[|s| - |p|..] == p) ==> r == s
  {
    if |p| <= |s| && s[|s| - |p|..] == p then s[..|s| - |p|] else s
  }

  /** Stripping the brackets of a list's text leaves its elements joined by ", ". */
  lemma Unbracket(xs: seq<string>)
    ensures RemoveSuffix(RemovePrefix(ListText(xs), "["), "]") == Join(xs, ", ")
  {
    var t := Join(xs, ", ");
    assert ListText(xs) == "[" + (t + "]");
    assert RemovePrefix(ListText(xs), "[") == t + "]";
  }

  /** Kotlin `indexOf` on a list: the first position of `x`, or -1. */
  function FirstIndex(xs: seq<string>, x: string): (r: int)
    ensures -1 <= r < |xs|
    ensures r >= 0 ==> xs[r] == x && forall k | 0 <= k < r :: xs[k] != x
    ensures r == -1 ==> x !in xs
  {
    if xs == [] then -1
    else if xs[0] == x then 0
    else
      var k := FirstIndex(xs[1..], x);
      if k == -1 then -1 else k + 1
  }

  /**
   * getMediaIdFromLink's shortcode: the list of the pieces between the first
   * "p" and the last piece, printed and stripped of its brackets; None where
   * `subList` throws IllegalArgumentException (the range runs backwards).
   */
  function ShortcodeOf(link: string): (r: Option<string>)
    ensures r.None? <==> FirstIndex(Split(link, "/"), "p") + 1 > |Split(link, "/")| - 1
  {
    var pieces := Split(link, "/");
    var from, to := FirstIndex(pieces, "p") + 1, |pieces| - 1;
    if from > to then None
    else Some(RemoveSuffix(RemovePrefix(ListText(pieces[from..to]), "["), "]"))
  }

  /** getMediaIdFromLink: the decimal text of the id a link's shortcode decodes to. */
  function MediaIdFromLink(a: Alphabet, link: string): (r: Result<Option<string>>)
    ensures !Contains(link, "instagram.com/p/") ==> r == Success(None)
    ensures r.Success? && r.value.Some? ==> ParseLong(r.value.value).Some?
  {
    if !Contains(link, "instagram.com/p/") then Success(None)
    else
      match ShortcodeOf(link)
      case None => Failure("IllegalArgumentException")
      case Some(code) =>
        match Decode(a, code)
        case None => Failure("NoSuchElementException")
        case Some(v) =>
          ParseDecimal(v, LONG_MIN, LONG_MAX);
          Success(Some(Decimal(v)))
  }

  /** getMediaIdFromLink's loop: reads the shortcode left to right into a Long. */
  method ReadShortcode(a: Alphabet, code: string) returns (r: Option<int>)
    ensures r == Decode(a, code)
  {
    var result := 0;
    for i := 0 to |code|
      invariant Decode(a, code[..i]) == Some(result)
    {
      var d := DigitOf(a, code[i]);
      assert code[..i + 1][..i] == code[..i];
      if d.None? {
        DecodeStuck(a, code, i + 1);
        return None;
      }
      result := Wrap(result * 64 + d.value);
    }
    assert code[..|code|] == code;
    return Some(result);
  }

  /** getMediaIdFromLink. */
  method GetMediaIdFromLink(a: Alphabet, link: string) returns (r: Result<Option<string>>)
    ensures r == MediaIdFromLink(a, link)
  {
    if !Contains(link, "instagram.com/p/") {
      return Success(None);
    }
    var shortcode := ShortcodeOf(link);
    if shortcode.None? {
      return Failure("IllegalArgumentException");
    }
    var id := ReadShortcode(a, shortcode.value);
    if id.None? {
      return Failure("NoSuchElementException");
    }
    return Success(Some(Decimal(id.value)));
  }

  // ---------------------------------------------------------------------------
  // The round trip
  // ---------------------------------------------------------------------------

  /** No character of a shortcode is a '/'. */
  lemma {:induction false} NoSlash(a: Alphabet, id: int)
    requires Encode(a, id).Some?
    ensures '/' !in Encode(a, id).value
    decreases id
  {
    if id > 0 {
      NoSlash(a, id / 64);
    }
  }

  /** The pieces after the scheme, joined by '/'. */
  lemma JoinPath(code: string)
    ensures Join(["", "instagram.com", "p", code, ""], "/") == "/instagram.com/p/" + code + "/"
  {
    var xs: seq<string> := ["", "instagram.com", "p", code, ""];
    assert Join(xs[3..], "/") == code + "/" by {
      assert xs[3..][1..] == xs[4..];
    }
    assert Join(xs[2..], "/") == "p/" + code + "/" by {
      assert xs[2..][1..] == xs[3..];
    }
    assert Join(xs[1..], "/") == "instagram.com/p/" + code + "/" by {
      assert xs[1..][1..] == xs[2..];
    }
  }

  /** A link around a shortcode is its pieces joined by '/'. */
  lemma JoinLink(code: string)
    ensures Join(["https:", "", "instagram.com", "p", code, ""], "/") == LINK_PREFIX + code + "/"
  {
    var xs: seq<string> := ["https:", "", "instagram.com", "p", code, ""];
    assert xs[1..] == ["", "instagram.com", "p", code, ""];
    JoinPath(code);
    assert "https:" + "/" + "/instagram.com/p/" == LINK_PREFIX;
  }

  /** The pieces of a link around a shortcode without '/'. */
  lemma LinkPieces(code: string)
    requires '/' !in code
    ensures Split(LINK_PREFIX + code + "/", "/") == ["https:", "", "instagram.com", "p", code, ""]
  {
    var xs: seq<string> := ["https:", "", "instagram.com", "p", code, ""];
    JoinLink(code);
    forall k | 0 <= k < |xs| ensures EndsClean(xs[k], "/") {
      CleanWithoutFirst(xs[k], "/");
    }
    SplitJoin(xs, "/");
  }

  /** A link around a shortcode contains the marker the decoder looks for. */
  lemma LinkIsALink(code: string)
    ensures Contains(LINK_PREFIX + code + "/", "instagram.com/p/")
  {
    var link := LINK_PREFIX + code + "/";
    assert link[8..24] == "instagram.com/p/";
    assert OccursAt(link, "instagram.com/p/", 8);
  }

  /** The decoder reads the link around a shortcode without '/' as that shortcode. */
  lemma ReadLink(a: Alphabet, code: string)
    requires '/' !in code
    ensures Decode(a, code).None? ==> MediaIdFromLink(a, LINK_PREFIX + code + "/") == Failure("NoSuchElementException")
    ensures Decode(a, code).Some? ==> MediaIdFromLink(a, LINK_PREFIX + code + "/") == Success(Some(Decimal(Decode(a, code).value)))
  {
    LinkIsALink(code);
    LinkPieces(code);
    var pieces: seq<string> := ["https:", "", "instagram.com", "p", code, ""];
    assert FirstIndex(pieces, "p") == 3 by {
      assert FirstIndex(pieces[3..], "p") == 0;
      assert FirstIndex(pieces[2..], "p") == 1 by { assert pieces[2..][1..] == pieces[3..]; }
      assert FirstIndex(pieces[1..], "p") == 2 by { assert pieces[1..][1..] == pieces[2..]; }
    }
    assert pieces[4..5] == [code];
    Unbracket([code]);
  }

  /**
   * getMediaIdFromLink undoes getLinkFromMediaId for every id from 0 to
   * LONG_MAX that has a shortcode under the alphabet.
   */
  lemma RoundTrip(a: Alphabet, id: int)
    requires 0 <= id <= LONG_MAX && Encode(a, id).Some?
    ensures LinkFromMediaId(a, Decimal(id)).Success?
    ensures MediaIdFromLink(a, LinkFromMediaId(a, Decimal(id)).value) == Success(Some(Decimal(id)))
  {
    ParseDecimal(id, LONG_MIN, LONG_MAX);
    var code := Encode(a, id).value;
    var link := LINK_PREFIX + code + "/";
    assert LinkFromMediaId(a, Decimal(id)) == Success(link);
    NoSlash(a, id);
    ReadLink(a, code);
    DecodeEncode(a, id);
  }

  /** Under the corrected alphabet the round trip holds for every id from 0 to LONG_MAX. */
  lemma RoundTripCorrected(id: int)
    requires 0 <= id <= LONG_MAX
    ensures LinkFromMediaId(Corrected, Decimal(id)).Success?
    ensures MediaIdFromLink(Corrected, LinkFromMediaId(Corrected, Decimal(id)).value) == Success(Some(Decimal(id)))
  {
    CorrectedEncodesAll(id);
    RoundTrip(Corrected, id);
  }

  /** A one-character shortcode decodes to that character's digit. */
  lemma DecodeOne(a: Alphabet, c: char)
    requires DigitOf(a, c).Some?
    ensures Decode(a, [c]) == DigitOf(a, c)
  {
    var code: string := [c];
    var d := DigitOf(a, c).value;
    assert code[..0] == [] && Decode(a, code[..0]) == Some(0);
    assert Wrap(0 * 64 + d) == d;
  }

  /** The decimal text of a two-digit number. */
  lemma TwoDigits(n: int)
    requires 10 <= n < 100
    ensures Decimal(n) == [DigitChar(n / 10), DigitChar(n % 10)]
  {
    assert Decimal(n / 10) == [DigitChar(n / 10)];
  }

  /** As written, the media 62 has no link: its only base-64 digit is 62, which no character has. */
  lemma AsWrittenHasNoLink(mediaId: string)
    requires mediaId == "62"
    ensures LinkFromMediaId(AsWritten, mediaId) == Failure("NoSuchElementException")
  {
    assert ParseLong(mediaId) == Some(62) by {
      ParseDecimal(62, LONG_MIN, LONG_MAX);
      TwoDigits(62);
    }
    assert Encode(AsWritten, 62).None? by {
      assert 62 / 64 == 0 && 62 % 64 == 62;
      assert Encode(AsWritten, 0) == Some("");
      assert CharOf(AsWritten, 62).None?;
    }
  }

  /**
   * As written, the link of the shortcode "-", which Instagram gives the
   * media 62, is read as the media 63; the corrected alphabet reads 62.
   */
  lemma AsWrittenMisreads(link: string)
    requires link == LINK_PREFIX + "-/"
    ensures MediaIdFromLink(AsWritten, link) == Success(Some("63"))
    ensures MediaIdFromLink(Corrected, link) == Success(Some("62"))
  {
    var code: string := "-";
    assert link == LINK_PREFIX + code + "/";
    assert Decode(AsWritten, code) == Some(63) by { DecodeOne(AsWritten, '-'); }
    assert Decode(Corrected, code) == Some(62) by { DecodeOne(Corrected, '-'); }
    assert Decimal(63) == "63" by { TwoDigits(63); }
    assert Decimal(62) == "62" by { TwoDigits(62); }
    assert MediaIdFromLink(AsWritten, link) == Success(Some(Decimal(63))) by { ReadLink(AsWritten, code); }
    assert MediaIdFromLink(Corrected, link) == Success(Some(Decimal(62))) by { ReadLink(Corrected, code); }
  }
}
