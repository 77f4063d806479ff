/**
 * Request signing and identifier formats (util/Crypto.kt).
 *
 * HMAC-SHA256 (RFC 2104 over SHA-256), MD5 (RFC 1321) and the random UUID
 * (RFC 4122, section 4.4) are computed by the JVM: their outcomes come in as
 * parameters. A digest is given as the unsigned integer `BigInteger(1, bytes)`
 * makes of it, or None when the JCE call throws.
 */
module Crypto {
  import opened Wrappers
  import opened Strings

  /** The application constants of the signer (the KEY object). */
  datatype Keys = Keys(sigKey: string, appVersion: string, sigKeyVersion: string)

  /** Crypto.Signature */
  datatype Signature = Signature(signed: string, appVersion: string, sigKeyVersion: string, payload: string)

  /**
   * generateHMAC: the digest formatted with "%040x" (lower-case hexadecimal,
   * zero-padded to at least 40 digits), or "" when the JCE call throws.
   */
  function GenerateHmac(digest: Option<nat>): (r: string)
    ensures digest.None? ==> r == ""
    ensures digest.Some? ==> |r| >= 40 && IsHex(r) && HexValue(r) == digest.value
    ensures digest.Some? ==> |r| == 40 || r[0] != '0'
  {
    match digest
    case None => ""
    case Some(n) =>
      HexRoundTrip(n);
      HexNoLeadingZero(n);
      var h := Hex(n);
      if |h| >= 40 then h
      else
        HexValueLeadingZeros(40 - |h|, h);
        PadLeft(h, 40, '0')
  }

  /**
   * signData: signs `payload` with the application key. `hmac(key, data)` is
   * the HmacSHA256 digest of `data` under `key`.
   */
  function SignData(keys: Keys, hmac: (string, string) -> Option<nat>, payload: string): (r: Signature)
    ensures r.payload == payload
    ensures r.appVersion == keys.appVersion && r.sigKeyVersion == keys.sigKeyVersion
    ensures hmac(keys.sigKey, payload).Some? ==>
              IsHex(r.signed) && HexValue(r.signed) == hmac(keys.sigKey, payload).value
    ensures hmac(keys.sigKey, payload).None? ==> r.signed == ""
  {
    Signature(GenerateHmac(hmac(keys.sigKey, payload)), keys.appVersion, keys.sigKeyVersion, payload)
  }

  /** generateMD5: `BigInteger(1, digest).toString(16)` (no padding), or "" when the JCE call throws. */
  function Md5Hex(digest: Option<nat>): string {
    match digest
    case None => ""
    case Some(n) => Hex(n)
  }

  /**
   * generateDeviceId: "android-" and the first 16 characters of the MD5 text of
   * the username and a random seed; None where `substring(0, 16)` throws
   * because that text is shorter.
   */
  function GenerateDeviceId(md5Digest: Option<nat>): (r: Option<string>)
    ensures r.Some? <==> |Md5Hex(md5Digest)| >= 16
    ensures r.Some? ==> |r.value| == 24 && r.value[..8] == "android-"
    ensures r.Some? ==> IsHex(r.value[8..]) && r.value[8..] == Md5Hex(md5Digest)[..16]
  {
    match md5Digest
    case None => None
    case Some(n) =>
      HexRoundTrip(n);
      var hash := Hex(n);
      if |hash| < 16 then None else Some("android-" + hash[..16])
  }

  /** The device id is defined exactly for the digests that need at least 16 hexadecimal digits. */
  lemma DeviceIdDefined(n: nat)
    ensures GenerateDeviceId(Some(n)).Some? <==> n >= Pow(16, 15)
  {
    HexLength(n, 15);
  }

  /** The text of a random UUID: five groups of lower-case hexadecimal digits joined by dashes. */
  ghost predicate IsUuidText(u: string) {
    exists a, b, c, d, e | IsHex(a) && IsHex(b) && IsHex(c) && IsHex(d) && IsHex(e) ::
      |a| == 8 && |b| == 4 && |c| == 4 && |d| == 4 && |e| == 12 &&
      u == a + "-" + b + "-" + c + "-" + d + "-" + e
  }

  /** generateUUID: the random UUID text, with every dash removed unless `withDashes`. */
  function GenerateUuid(withDashes: bool, random: string): (r: string)
    ensures withDashes ==> r == random
    ensures !withDashes ==> '-' !in r && multiset(r) == multiset(random)['-' := 0]
  {
    if withDashes then random
    else
      WithoutCounts(random, '-');
      Without(random, '-')
  }

  /** Removing a character distributes over concatenation. */
  lemma {:induction false} WithoutConcat(x: string, y: string, c: char)
    ensures Without(x + y, c) == Without(x, c) + Without(y, c)
    decreases |x|
  {
    if x != [] {
      var keep: string := if x[0] == c then [] else [x[0]];
      assert (x + y)[0] == x[0] && (x + y)[1..] == x[1..] + y;
      assert Without(x + y, c) == keep + Without(x[1..] + y, c);
      WithoutConcat(x[1..], y, c);
      assert Without(x, c) == keep + Without(x[1..], c);
      assert keep + (Without(x[1..], c) + Without(y, c)) == (keep + Without(x[1..], c)) + Without(y, c);
    } else {
      assert x + y == y;
    }
  }

  /** A group of hexadecimal digits has no dash to remove. */
  lemma HexWithoutDash(g: string)
    requires IsHex(g)
    ensures Without(g, '-') == g
  {
    assert forall i | 0 <= i < |g| :: g[i] != '-';
  }

  /** Removing the dashes before a trailing hexadecimal group keeps the group. */
  lemma HexGroupWithoutDash(rest: string, g: string)
    requires IsHex(g)
    ensures Without(rest + "-" + g, '-') == Without(rest, '-') + g
  {
    var dash: string := "-";
    assert dash[1..] == [];
    assert Without(dash, '-') == [];
    WithoutConcat(rest + dash, g, '-');
    WithoutConcat(rest, dash, '-');
    HexWithoutDash(g);
  }

  /** Removing the dashes of five dash-joined hexadecimal groups concatenates the groups. */
  lemma GroupsWithoutDashes(a: string, b: string, c: string, d: string, e: string)
    requires IsHex(a) && IsHex(b) && IsHex(c) && IsHex(d) && IsHex(e)
    ensures Without(a + "-" + b + "-" + c + "-" + d + "-" + e, '-') == a + b + c + d + e
  {
    HexWithoutDash(a);
    HexGroupWithoutDash(a, b);
    HexGroupWithoutDash(a + "-" + b, c);
    HexGroupWithoutDash(a + "-" + b + "-" + c, d);
    HexGroupWithoutDash(a + "-" + b + "-" + c + "-" + d, e);
  }

  /** Without dashes, a UUID text is 32 hexadecimal digits. */
  lemma UuidWithoutDashes(random: string)
    requires IsUuidText(random)
    ensures |GenerateUuid(false, random)| == 32 && IsHex(GenerateUuid(false, random))
  {
    var a, b, c, d, e :| IsHex(a) && IsHex(b) && IsHex(c) && IsHex(d) && IsHex(e) &&
      |a| == 8 && |b| == 4 && |c| == 4 && |d| == 4 && |e| == 12 &&
      random == a + "-" + b + "-" + c + "-" + d + "-" + e;
    GroupsWithoutDashes(a, b, c, d, e);
    var r := a + b + c + d + e;
    forall i | 0 <= i < |r| ensures IsHexChar(r[i]) {
      if i < 8 { assert r[i] == a[i]; }
      else if i < 12 { assert r[i] == b[i - 8]; }
      else if i < 16 { assert r[i] == c[i - 12]; }
      else if i < 20 { assert r[i] == d[i - 16]; }
      else { assert r[i] == e[i - 20]; }
    }
  }
}
