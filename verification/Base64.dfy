/** Standard base64 with padding (section 4 of RFC 4648), as the dead letters use it. */
module Base64 {
  import opened Prelude
  import opened Outbox

  function Digit(n: int): (c: char)
    requires 0 <= n < 64
    ensures Value(c) == Some(n) && c != '=' && c != '\r' && c != '\n'
  {
    if n < 26 then 'A' + n as char
    else if n < 52 then 'a' + (n - 26) as char
    else if n < 62 then '0' + (n - 52) as char
    else if n == 62 then '+'
    else '/'
  }

  function Value(c: char): (v: Option<int>)
    ensures v.Some? ==> IsDigit(v.value)
  {
    if 'A' <= c <= 'Z' then Some((c - 'A') as int)
    else if 'a' <= c <= 'z' then Some((c - 'a') as int + 26)
    else if '0' <= c <= '9' then Some((c - '0') as int + 52)
    else if c == '+' then Some(62)
    else if c == '/' then Some(63)
    else None
  }

  function Encode(bs: Bytes): string {
    if bs == [] then ""
    else if |bs| == 1 then [Digit(bs[0] / 4), Digit(bs[0] % 4 * 16), '=', '=']
    else if |bs| == 2 then [Digit(bs[0] / 4), Digit(bs[0] % 4 * 16 + bs[1] / 16), Digit(bs[1] % 16 * 4), '=']
    else
      [Digit(bs[0] / 4), Digit(bs[0] % 4 * 16 + bs[1] / 16), Digit(bs[1] % 16 * 4 + bs[2] / 64), Digit(bs[2] % 64)]
      + Encode(bs[3..])
  }

  /** Line breaks are skipped wherever they stand. */
  function Strip(s: string): string {
    if s == "" then ""
    else if s[0] == '\r' || s[0] == '\n' then Strip(s[1..])
    else [s[0]] + Strip(s[1..])
  }

  predicate IsDigit(n: int) {
    0 <= n < 64
  }

  /** The three bytes of four digits. */
  function First(a: int, b: int): Byte
    requires IsDigit(a) && IsDigit(b)
  {
    a * 4 + b / 16
  }

  function Second(b: int, c: int): Byte
    requires IsDigit(b) && IsDigit(c)
  {
    b % 16 * 16 + c / 4
  }

  function Third(c: int, d: int): Byte
    requires IsDigit(c) && IsDigit(d)
  {
    c % 4 * 64 + d
  }

  /** Quads; padding may close the last one, and the unused low bits before the padding are not looked at. */
  function DecodeQuads(s: string): Option<Bytes> {
    if s == "" then Some([])
    else if |s| < 4 then None
    else
      var a, b, c, d := Value(s[0]), Value(s[1]), Value(s[2]), Value(s[3]);
      if a.None? || b.None? then None
      else if |s| == 4 && s[2] == '=' && s[3] == '=' then Some([First(a.value, b.value)])
      else if c.None? then None
      else if |s| == 4 && s[3] == '=' then Some([First(a.value, b.value), Second(b.value, c.value)])
      else if d.None? then None
      else
        var rest := DecodeQuads(s[4..]);
        if rest.None? then None
        else Some([First(a.value, b.value), Second(b.value, c.value), Third(c.value, d.value)] + rest.value)
  }

  function Decode(s: string): Option<Bytes> {
    DecodeQuads(Strip(s))
  }

  lemma {:induction false} QuadsRoundTrip(bs: Bytes)
    ensures DecodeQuads(Encode(bs)) == Some(bs)
  {
    if |bs| >= 3 {
      QuadsRoundTrip(bs[3..]);
      FullQuad(bs);
      HeadOfThree(bs);
      OpenQuad(Encode(bs));
      ThreeBytes(bs[0], bs[1], bs[2]);
    } else if |bs| == 2 {
      TwoLeft(bs[0], bs[1]);
      assert bs == [bs[0], bs[1]];
    } else if |bs| == 1 {
      OneLeft(bs[0]);
      assert bs == [bs[0]];
    }
  }

  lemma OneLeft(x: Byte)
    ensures DecodeQuads(Encode([x])) == Some([x])
  {
    var a, b := Digit(x / 4), Digit(x % 4 * 16);
    assert Encode([x]) == [a, b, '=', '='];
    OneByte(x);
    ClosedByTwo(a, b);
  }

  lemma TwoLeft(x: Byte, y: Byte)
    ensures DecodeQuads(Encode([x, y])) == Some([x, y])
  {
    var a, b, c := Digit(x / 4), Digit(x % 4 * 16 + y / 16), Digit(y % 16 * 4);
    assert Encode([x, y]) == [a, b, c, '='];
    TwoBytes(x, y);
    ClosedByOne(a, b, c);
  }

  lemma HeadOfThree(bs: Bytes)
    requires |bs| >= 3
    ensures bs == [bs[0], bs[1], bs[2]] + bs[3..]
  {
  }

  /** The text starts with the four digits of three bytes. */
  predicate StartsWith(s: string, x: Byte, y: Byte, z: Byte) {
    && |s| >= 4 && s[0] == Digit(x / 4) && s[1] == Digit(x % 4 * 16 + y / 16)
    && s[2] == Digit(y % 16 * 4 + z / 64) && s[3] == Digit(z % 64)
  }

  lemma OpenQuad(s: string)
    requires |s| >= 4 && forall i :: 0 <= i < 4 ==> Value(s[i]).Some?
    requires DecodeQuads(s[4..]).Some?
    ensures DecodeQuads(s) == Some(
              [ First(Value(s[0]).value, Value(s[1]).value),
                Second(Value(s[1]).value, Value(s[2]).value),
                Third(Value(s[2]).value, Value(s[3]).value) ]
              + DecodeQuads(s[4..]).value)
  {
    assert Value('=').None?;
  }

  lemma ClosedByTwo(a: char, b: char)
    requires Value(a).Some? && Value(b).Some?
    ensures DecodeQuads([a, b, '=', '=']) == Some([First(Value(a).value, Value(b).value)])
  {
    var s := [a, b, '=', '='];
    assert |s| == 4 && s[0] == a && s[1] == b && s[2] == '=' && s[3] == '=';
  }

  lemma ClosedByOne(a: char, b: char, c: char)
    requires Value(a).Some? && Value(b).Some? && Value(c).Some?
    ensures DecodeQuads([a, b, c, '=']) == Some([First(Value(a).value, Value(b).value), Second(Value(b).value, Value(c).value)])
  {
    var s := [a, b, c, '='];
    assert |s| == 4 && s[0] == a && s[1] == b && s[2] == c && s[3] == '=';
    assert Value('=').None?;
  }

  lemma OneByte(x: Byte)
    ensures First(x / 4, x % 4 * 16) == x
  {
  }

  lemma TwoBytes(x: Byte, y: Byte)
    ensures First(x / 4, x % 4 * 16 + y / 16) == x
    ensures Second(x % 4 * 16 + y / 16, y % 16 * 4) == y
  {
  }

  lemma ThreeBytes(x: Byte, y: Byte, z: Byte)
    ensures First(x / 4, x % 4 * 16 + y / 16) == x
    ensures Second(x % 4 * 16 + y / 16, y % 16 * 4 + z / 64) == y
    ensures Third(y % 16 * 4 + z / 64, z % 64) == z
  {
  }

  lemma FullQuad(bs: Bytes)
    requires |bs| >= 3
    ensures StartsWith(Encode(bs), bs[0], bs[1], bs[2]) && Encode(bs)[4..] == Encode(bs[3..])
  {
  }

  lemma {:induction false} NothingToStrip(bs: Bytes)
    ensures Strip(Encode(bs)) == Encode(bs)
  {
    if bs != [] {
      var s := Encode(bs);
      assert |s| >= 4;
      assert Strip(s[4..]) == s[4..] by {
        if |bs| >= 3 {
          FullQuad(bs);
          NothingToStrip(bs[3..]);
        } else {
          assert s[4..] == "";
        }
      }
      assert s[3..][1..] == s[4..] && s[2..][1..] == s[3..] && s[1..][1..] == s[2..];
      assert Strip(s[3..]) == s[3..];
      assert Strip(s[2..]) == s[2..];
      assert Strip(s[1..]) == s[1..];
    }
  }

  /** The alphabet of table 1 of RFC 4648, by character code. */
  lemma DigitsAreTheAlphabet(n: nat)
    requires n < 64
    ensures Digit(n) as int == (if n < 26 then 65 + n else if n < 52 then 97 + (n - 26) else if n < 62 then 48 + (n - 52)
                                else if n == 62 then 43 else 47)
  {
  }

  /** Three bytes are the 24 bits of four digits, most significant first; a rest of two or one byte is filled with zero
      bits and its missing digits are written as padding (section 4 of RFC 4648). */
  lemma {:induction false} QuadsAreTheBits(bs: Bytes)
    ensures |bs| >= 3 ==>
              var s := Encode(bs);
              && |s| >= 4 && Value(s[0]).Some? && Value(s[1]).Some? && Value(s[2]).Some? && Value(s[3]).Some?
              && (bs[0] as int * 256 + bs[1]) * 256 + bs[2]
                 == ((Value(s[0]).value * 64 + Value(s[1]).value) * 64 + Value(s[2]).value) * 64 + Value(s[3]).value
              && s[4..] == Encode(bs[3..])
    ensures |bs| == 2 ==>
              var s := Encode(bs);
              && |s| == 4 && Value(s[0]).Some? && Value(s[1]).Some? && Value(s[2]).Some? && s[3] == '='
              && (bs[0] as int * 256 + bs[1]) * 4 == (Value(s[0]).value * 64 + Value(s[1]).value) * 64 + Value(s[2]).value
    ensures |bs| == 1 ==>
              var s := Encode(bs);
              && |s| == 4 && Value(s[0]).Some? && Value(s[1]).Some? && s[2] == '=' && s[3] == '='
              && bs[0] as int * 16 == Value(s[0]).value * 64 + Value(s[1]).value
    ensures bs == [] ==> Encode(bs) == ""
  {
    if |bs| >= 3 {
      FullQuad(bs);
    }
  }

  /** Decoding an encoding restores every byte string. */
  lemma {:induction false} RoundTrip(bs: Bytes)
    ensures Decode(Encode(bs)) == Some(bs)
  {
    NothingToStrip(bs);
    QuadsRoundTrip(bs);
  }
}
