/** MongoDB document ids: twelve bytes, whose `toString()` is their
    24-character lower-case hexadecimal form. */
module ObjectIds {
  import opened Wrappers

  type Byte = x: int | 0 <= x < 256

  datatype ObjectId = ObjectId(bytes: seq<Byte>)

  ghost predicate WellFormed(o: ObjectId) {
    |o.bytes| == 12
  }

  predicate IsHexDigit(c: char) {
    '0' <= c <= '9' || 'a' <= c <= 'f'
  }

  /** The lower-case hex digit of a nibble. */
  function DigitOf(n: int): (c: char)
    requires 0 <= n < 16
    ensures IsHexDigit(c)
  {
    if n < 10 then ('0' as int + n) as char else ('a' as int + n - 10) as char
  }

  function ValueOf(c: char): (r: Option<int>)
    ensures r.Some? <==> IsHexDigit(c)
    ensures r.Some? ==> 0 <= r.value < 16
  {
    if '0' <= c <= '9' then Some(c as int - '0' as int)
    else if 'a' <= c <= 'f' then Some(c as int - 'a' as int + 10)
    else None
  }

  /** Two hex digits per byte, high nibble first. */
  function HexOfBytes(bs: seq<Byte>): (s: string)
    ensures |s| == 2 * |bs|
    ensures forall i :: 0 <= i < |s| ==> IsHexDigit(s[i])
  {
    if bs == [] then []
    else [DigitOf(bs[0] / 16), DigitOf(bs[0] % 16)] + HexOfBytes(bs[1..])
  }

  /** `ObjectId.prototype.toString`. */
  function ToString(o: ObjectId): string {
    HexOfBytes(o.bytes)
  }

  /** Reads pairs of hex digits back into bytes, stopping at the first pair
      that is not two hex digits. */
  function BytesOfHex(s: string): seq<Byte>
    decreases |s|
  {
    if |s| < 2 then []
    else
      match (ValueOf(s[0]), ValueOf(s[1]))
      case (Some(h), Some(l)) => [h * 16 + l] + BytesOfHex(s[2..])
      case _ => []
  }

  /** Each digit reads back as the nibble it was made from, and a hex digit
      is the digit of its value. */
  lemma DigitRoundTrip(n: int)
    requires 0 <= n < 16
    ensures ValueOf(DigitOf(n)) == Some(n)
  {
  }

  lemma ValueRoundTrip(c: char)
    requires IsHexDigit(c)
    ensures DigitOf(ValueOf(c).value) == c
  {
  }

  lemma ByteSplit(b: Byte)
    ensures 0 <= b / 16 < 16 && 0 <= b % 16 < 16
    ensures (b / 16) * 16 + b % 16 == b
  {
  }

  /** A string that starts with the digits of `h` and `l` reads back as the
      byte `h * 16 + l` followed by whatever the rest reads as. */
  lemma PairRoundTrip(h: int, l: int, s: string)
    requires 0 <= h < 16 && 0 <= l < 16
    requires |s| >= 2 && s[0] == DigitOf(h) && s[1] == DigitOf(l)
    ensures 0 <= h * 16 + l < 256
    ensures BytesOfHex(s) == [h * 16 + l] + BytesOfHex(s[2..])
  {
    DigitRoundTrip(h);
    DigitRoundTrip(l);
    ReadPair(s, h, l);
  }

  /** One step of BytesOfHex over a leading pair of hex digits. */
  lemma ReadPair(s: string, h: int, l: int)
    requires |s| >= 2 && ValueOf(s[0]) == Some(h) && ValueOf(s[1]) == Some(l)
    ensures 0 <= h * 16 + l < 256
    ensures BytesOfHex(s) == [h * 16 + l] + BytesOfHex(s[2..])
  {
    assert (ValueOf(s[0]), ValueOf(s[1])) == (Some(h), Some(l));
  }

  lemma {:induction false} HexRoundTrip(bs: seq<Byte>)
    ensures BytesOfHex(HexOfBytes(bs)) == bs
  {
    if bs != [] {
      var s := HexOfBytes(bs);
      var rest := HexOfBytes(bs[1..]);
      var h, l := bs[0] / 16, bs[0] % 16;
      ByteSplit(bs[0]);
      assert s == [DigitOf(h), DigitOf(l)] + rest;
      assert s[2..] == rest;
      PairRoundTrip(h, l, s);
      HexRoundTrip(bs[1..]);
      assert bs == [bs[0]] + bs[1..];
    }
  }

  /** The string form of an id is 24 hex digits and identifies the id. */
  lemma ToStringInjective(o1: ObjectId, o2: ObjectId)
    requires WellFormed(o1) && WellFormed(o2)
    requires ToString(o1) == ToString(o2)
    ensures o1 == o2
    ensures |ToString(o1)| == 24
  {
    HexRoundTrip(o1.bytes);
    HexRoundTrip(o2.bytes);
  }
}
