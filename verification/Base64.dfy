/** Base64 as in RFC 4648, section 4. */
module Base64 {
  import opened Options

  type Byte = n: nat | n < 256

  type Sextet = n: nat | n < 64

  function CharOf(i: Sextet): char {
    if i < 26 then ('A' as int + i) as char
    else if i < 52 then ('a' as int + (i - 26)) as char
    else if i < 62 then ('0' as int + (i - 52)) as char
    else if i == 62 then '+' else '/'
  }

  function IndexOf(c: char): Option<Sextet> {
    if 'A' <= c <= 'Z' then Some(c as int - 'A' as int)
    else if 'a' <= c <= 'z' then Some(c as int - 'a' as int + 26)
    else if '0' <= c <= '9' then Some(c as int - '0' as int + 52)
    else if c == '+' then Some(62)
    else if c == '/' then Some(63)
    else None
  }

  lemma IndexOfChar(i: Sextet)
    ensures IndexOf(CharOf(i)) == Some(i) && CharOf(i) != '='
  {}

  function Encode(bs: seq<Byte>): string {
    if bs == [] then ""
    else if |bs| == 1 then [CharOf(bs[0] / 4), CharOf(bs[0] % 4 * 16), '=', '=']
    else if |bs| == 2 then
      [CharOf(bs[0] / 4), CharOf(bs[0] % 4 * 16 + bs[1] / 16), CharOf(bs[1] % 16 * 4), '=']
    else FourChars(bs[0], bs[1], bs[2]) + Encode(bs[3..])
  }

  function FourChars(x: Byte, y: Byte, z: Byte): string {
    [CharOf(x / 4), CharOf(x % 4 * 16 + y / 16), CharOf(y % 16 * 4 + z / 64), CharOf(z % 64)]
  }

  function FirstByte(a: Sextet, b: Sextet): Byte { a * 4 + b / 16 }

  function SecondByte(b: Sextet, c: Sextet): Byte { b % 16 * 16 + c / 4 }

  function ThirdByte(c: Sextet, d: Sextet): Byte { c % 4 * 64 + d }

  /** None for characters outside the alphabet, misplaced padding or a broken group. */
  function Decode(s: string): Option<seq<Byte>> {
    if s == "" then Some([])
    else if |s| < 4 then None
    else
      match (IndexOf(s[0]), IndexOf(s[1]))
      case (Some(a), Some(b)) =>
        if s[3] == '=' then
          if |s| != 4 then None
          else if s[2] == '=' then Some([FirstByte(a, b)])
          else (match IndexOf(s[2])
                case Some(c) => Some([FirstByte(a, b), SecondByte(b, c)])
                case None => None)
        else (match (IndexOf(s[2]), IndexOf(s[3]), Decode(s[4..]))
              case (Some(c), Some(d), Some(rest)) =>
                Some([FirstByte(a, b), SecondByte(b, c), ThirdByte(c, d)] + rest)
              case _ => None)
      case _ => None
  }

  lemma DecodeGroup(x: Byte, y: Byte, z: Byte, s: string, bs: seq<Byte>)
    requires Decode(s) == Some(bs)
    ensures Decode(FourChars(x, y, z) + s) == Some([x, y, z] + bs)
  {
    IndexOfChar(x / 4);
    IndexOfChar(x % 4 * 16 + y / 16);
    IndexOfChar(y % 16 * 4 + z / 64);
    IndexOfChar(z % 64);
    Pair(x, y, z);
    assert (FourChars(x, y, z) + s)[4..] == s;
  }

  lemma DecodeOne(x: Byte)
    ensures Decode(Encode([x])) == Some([x])
  {
    IndexOfChar(x / 4);
    IndexOfChar(x % 4 * 16);
    Pair(x, 0, 0);
  }

  lemma DecodeTwo(x: Byte, y: Byte)
    ensures Decode(Encode([x, y])) == Some([x, y])
  {
    IndexOfChar(x / 4);
    IndexOfChar(x % 4 * 16 + y / 16);
    IndexOfChar(y % 16 * 4);
    Pair(x, y, 0);
  }

  lemma FirstThree<T>(s: seq<T>)
    requires |s| >= 3
    ensures s == [s[0], s[1], s[2]] + s[3..]
  {}

  lemma EncodeGroup(bs: seq<Byte>)
    requires |bs| >= 3
    ensures Encode(bs) == FourChars(bs[0], bs[1], bs[2]) + Encode(bs[3..])
  {}

  lemma {:induction false} DecodeEncode(bs: seq<Byte>)
    ensures Decode(Encode(bs)) == Some(bs)
    decreases |bs|
  {
    if |bs| == 1 {
      assert bs == [bs[0]];
      DecodeOne(bs[0]);
    } else if |bs| == 2 {
      assert bs == [bs[0], bs[1]];
      DecodeTwo(bs[0], bs[1]);
    } else if |bs| >= 3 {
      DecodeEncode(bs[3..]);
      EncodeGroup(bs);
      FirstThree(bs);
      DecodeGroup(bs[0], bs[1], bs[2], Encode(bs[3..]), bs[3..]);
    }
  }

  /** Three bytes survive the split into four sextets. */
  lemma Pair(x: Byte, y: Byte, z: Byte)
    ensures FirstByte(x / 4, x % 4 * 16 + y / 16) == x
    ensures SecondByte(x % 4 * 16 + y / 16, y % 16 * 4 + z / 64) == y
    ensures ThirdByte(y % 16 * 4 + z / 64, z % 64) == z
  {}
}
