/**
 * Key identifiers (`getUniqueKeyId`): sixteen hex characters of eight random
 * bytes followed by the current time in milliseconds as an unpadded base-16
 * numeral.  The entropy source and the clock are parameters.
 */
module KeyIds {
  import opened Wrappers
  import opened Numerals

  newtype byte = x: int | 0 <= x < 256

  /** `crypto.randomBytes(8)`: the width of the random part, in bytes. */
  const RandomWidth: nat := 8

  /** The width of the random part, in hex characters. */
  const RandomHexWidth: nat := 2 * RandomWidth

  /** Two lower-case hex characters, high nibble first (`Buffer#toString('hex')`). */
  function ByteToHex(b: byte): (r: string)
    ensures |r| == 2 && IsNumeral(r, 16)
  {
    DigitCharIsDigit(b as int / 16, 16);
    DigitCharIsDigit(b as int % 16, 16);
    [DigitChar(b as int / 16), DigitChar(b as int % 16)]
  }

  function BytesToHex(bs: seq<byte>): (r: string)
    ensures |r| == 2 * |bs|
    ensures IsNumeral(r, 16)
  {
    if |bs| == 0 then [] else ByteToHex(bs[0]) + BytesToHex(bs[1..])
  }

  /** Decodes pairs of hex characters back into bytes. */
  function HexToBytes(s: string): (bs: seq<byte>)
    requires |s| % 2 == 0 && IsNumeral(s, 16)
    ensures |bs| == |s| / 2
  {
    if |s| == 0 then []
    else [(DigitValue(s[0], 16) * 16 + DigitValue(s[1], 16)) as byte] + HexToBytes(s[2..])
  }

  lemma {:induction false} HexToBytesOfBytesToHex(bs: seq<byte>)
    ensures HexToBytes(BytesToHex(bs)) == bs
  {
    if |bs| > 0 {
      var s := BytesToHex(bs);
      var b := bs[0] as int;
      assert s[..2] == ByteToHex(bs[0]);
      assert s[2..] == BytesToHex(bs[1..]);
      DigitCharIsDigit(b / 16, 16);
      DigitCharIsDigit(b % 16, 16);
      HexToBytesOfBytesToHex(bs[1..]);
    }
  }

  /** `Number#toString(16)` of an integer: a minus sign, then the magnitude, when negative. */
  function NumberToHex(t: int): (r: string)
    ensures t >= 0 <==> IsCanonical(r, 16)
    ensures t < 0 ==> |r| >= 2 && r[0] == '-' && IsCanonical(r[1..], 16) && r[1..] != "0"
  {
    if t < 0 then "-" + ToNumeral(-t, 16) else ToNumeral(t, 16)
  }

  /** Reads a number printed by `NumberToHex`; anything else is rejected. */
  function HexToNumber(s: string): Option<int> {
    if |s| >= 2 && s[0] == '-' && IsCanonical(s[1..], 16) && s[1..] != "0" then
      Some(0 - FromNumeral(s[1..], 16) as int)
    else if IsCanonical(s, 16) then
      Some(FromNumeral(s, 16))
    else
      None
  }

  lemma HexToNumberOfNumberToHex(t: int)
    ensures HexToNumber(NumberToHex(t)) == Some(t)
  {
    var s := NumberToHex(t);
    if t < 0 {
      FromToNumeral(-t, 16);
      assert FromNumeral(s[1..], 16) == -t;
    } else {
      FromToNumeral(t, 16);
      assert s[0] != '-' by {
        assert IsDigit(s[0], 16);
      }
    }
  }

  /** The random bytes and time a key id was built from. */
  datatype KeyIdParts = KeyIdParts(random: seq<byte>, time: int)

  /** Splits a key id at the fixed width of its random part. */
  function ParseKeyId(kid: string): Option<KeyIdParts> {
    if |kid| <= RandomHexWidth || !IsNumeral(kid[..RandomHexWidth], 16) then None
    else
      match HexToNumber(kid[RandomHexWidth..])
      case None => None
      case Some(t) => Some(KeyIdParts(HexToBytes(kid[..RandomHexWidth]), t))
  }

  /**
   * `getUniqueKeyId` with `crypto.randomBytes(8)` as `random` and `Date.now()`
   * as `now`.
   */
  function GetUniqueKeyId(random: seq<byte>, now: int): (kid: string)
    requires |random| == RandomWidth
    ensures |kid| == RandomHexWidth + |NumberToHex(now)|
    ensures IsNumeral(kid[..RandomHexWidth], 16)
    ensures now >= 0 ==> IsNumeral(kid, 16)
    ensures now >= 0 ==> IsCanonical(kid[RandomHexWidth..], 16)
  {
    BytesToHex(random) + NumberToHex(now)
  }

  /** A key id determines the random bytes and the time it was built from. */
  lemma KeyIdRoundTrip(random: seq<byte>, now: int)
    requires |random| == RandomWidth
    ensures ParseKeyId(GetUniqueKeyId(random, now)) == Some(KeyIdParts(random, now))
  {
    var kid := GetUniqueKeyId(random, now);
    assert kid[..RandomHexWidth] == BytesToHex(random);
    assert kid[RandomHexWidth..] == NumberToHex(now);
    HexToBytesOfBytesToHex(random);
    HexToNumberOfNumberToHex(now);
  }

  /**
   * The time part alone makes key ids unique: ids built at different
   * milliseconds differ whatever their random bytes.
   */
  lemma KeyIdsUniqueByTime(random1: seq<byte>, now1: int, random2: seq<byte>, now2: int)
    requires |random1| == RandomWidth && |random2| == RandomWidth
    requires now1 != now2
    ensures GetUniqueKeyId(random1, now1) != GetUniqueKeyId(random2, now2)
  {
    KeyIdRoundTrip(random1, now1);
    KeyIdRoundTrip(random2, now2);
  }

  /**
   * The length of a key id is sixteen plus the number of hex digits of the time:
   * for a positive time, `16^(len-17) <= now < 16^(len-16)`.
   */
  lemma KeyIdLength(random: seq<byte>, now: int)
    requires |random| == RandomWidth
    requires now > 0
    ensures var len := |GetUniqueKeyId(random, now)|;
      len > RandomHexWidth && Pow(16, len - RandomHexWidth - 1) <= now < Pow(16, len - RandomHexWidth)
  {
    NumeralLength(now, 16);
  }
}
