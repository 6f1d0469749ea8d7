/**
 * urllib.parse.quote(s) with its default safe='/': s is encoded as UTF-8, and
 * every byte that is not an ASCII letter, digit, one of "_.-~" or '/' becomes
 * '%' followed by two upper-case hexadecimal digits.
 */
module UrlQuote {

  type Byte = b: int | 0 <= b < 256

  /** The UTF-8 encoding of one Unicode scalar value: one to four bytes. */
  function Utf8Char(c: char): (r: seq<Byte>)
    ensures 1 <= |r| <= 4
    ensures |r| == 1 <==> c as int < 0x80
  {
    var n := c as int;
    if n < 0x80 then [n]
    else if n < 0x800 then [0xC0 + n / 64, 0x80 + n % 64]
    else if n < 0x10000 then [0xE0 + n / 4096, 0x80 + n / 64 % 64, 0x80 + n % 64]
    else [0xF0 + n / 262144, 0x80 + n / 4096 % 64, 0x80 + n / 64 % 64, 0x80 + n % 64]
  }

  /** The code point a one- to four-byte UTF-8 sequence stands for. */
  function SequenceValue(bs: seq<Byte>): int
    requires 1 <= |bs| <= 4
  {
    var b0, b1, b2, b3 := bs[0] as int, ByteAt(bs, 1), ByteAt(bs, 2), ByteAt(bs, 3);
    if |bs| == 1 then b0
    else if |bs| == 2 then (b0 - 0xC0) * 64 + (b1 - 0x80)
    else if |bs| == 3 then (b0 - 0xE0) * 4096 + (b1 - 0x80) * 64 + (b2 - 0x80)
    else (b0 - 0xF0) * 262144 + (b1 - 0x80) * 4096 + (b2 - 0x80) * 64 + (b3 - 0x80)
  }

  /** Byte i of the sequence as a number; 0 past its end. */
  function ByteAt(bs: seq<Byte>, i: nat): int {
    if i < |bs| then bs[i] as int else 0
  }

  /** The length of the sequence its first byte announces. */
  function AnnouncedLength(b: Byte): int {
    if b < 0x80 then 1 else if 0xC0 <= b < 0xE0 then 2 else if 0xE0 <= b < 0xF0 then 3
    else if 0xF0 <= b < 0xF8 then 4 else 0
  }

  /**
   * The encoding is the UTF-8 one: the first byte announces the length, the
   * others are continuation bytes, and the bytes spell the character's code point.
   */
  lemma Utf8CharValue(c: char)
    ensures var r := Utf8Char(c);
      AnnouncedLength(r[0]) == |r| && (forall i :: 1 <= i < |r| ==> 0x80 <= r[i] < 0xC0)
      && SequenceValue(r) == c as int
  {
    var n := c as int;
    assert n == n / 64 * 64 + n % 64;
    assert n / 64 == n / 4096 * 64 + n / 64 % 64;
    assert n / 4096 == n / 262144 * 64 + n / 4096 % 64;
    assert n / 4096 == n / 64 / 64 && n / 262144 == n / 4096 / 64;
  }

  /** The UTF-8 encoding of a string: one to four bytes per character. */
  function Utf8(s: string): (r: seq<Byte>)
    ensures |s| <= |r| <= 4 * |s|
    decreases |s|
  {
    if s == [] then [] else Utf8Char(s[0]) + Utf8(s[1..])
  }

  /** A byte quote leaves as it is: an ASCII letter or digit, '_', '.', '-', '~', or '/'. */
  predicate IsSafeByte(b: Byte) {
    'A' as int <= b <= 'Z' as int || 'a' as int <= b <= 'z' as int || '0' as int <= b <= '9' as int
    || b == '_' as int || b == '.' as int || b == '-' as int || b == '~' as int || b == '/' as int
  }

  /** A safe ASCII character. */
  predicate IsSafeChar(c: char) {
    c as int < 0x80 && IsSafeByte(c as int)
  }

  /** An upper-case hexadecimal digit. */
  predicate IsHexDigit(c: char) {
    '0' <= c <= '9' || 'A' <= c <= 'F'
  }

  function HexDigit(d: int): (c: char)
    requires 0 <= d < 16
    ensures IsHexDigit(c)
  {
    if d < 10 then ('0' as int + d) as char else ('A' as int + d - 10) as char
  }

  /** The value of an upper-case hexadecimal digit. */
  function HexValue(c: char): (d: int)
    requires IsHexDigit(c)
    ensures 0 <= d < 16
  {
    if c <= '9' then c as int - '0' as int else c as int - 'A' as int + 10
  }

  /** A safe byte as itself, any other as %XX. */
  function QuoteByte(b: Byte): (r: string)
    ensures IsSafeByte(b) ==> r == [b as char]
    ensures !IsSafeByte(b) ==> |r| == 3 && r[0] == '%' && IsHexDigit(r[1]) && IsHexDigit(r[2])
                                && HexValue(r[1]) * 16 + HexValue(r[2]) == b
  {
    if IsSafeByte(b) then [b as char] else ['%', HexDigit(b / 16), HexDigit(b % 16)]
  }

  function QuoteBytes(bs: seq<Byte>): (r: string)
    ensures |bs| <= |r| <= 3 * |bs|
    decreases |bs|
  {
    if bs == [] then [] else QuoteByte(bs[0]) + QuoteBytes(bs[1..])
  }

  /** urllib.parse.quote(s): only safe characters and %XX escapes, one to twelve per character. */
  function Quote(s: string): (r: string)
    ensures IsQuoted(r)
    ensures |s| <= |r| <= 12 * |s|
  {
    QuoteBytesAlphabet(Utf8(s));
    QuoteBytes(Utf8(s))
  }

  /** Every character quote writes is safe, '%' or an upper-case hexadecimal digit. */
  predicate IsQuoted(t: string) {
    forall i :: 0 <= i < |t| ==> IsSafeChar(t[i]) || t[i] == '%' || IsHexDigit(t[i])
  }

  lemma {:induction false} QuoteBytesAlphabet(bs: seq<Byte>)
    ensures IsQuoted(QuoteBytes(bs))
    decreases |bs|
  {
    if bs != [] {
      QuoteBytesAlphabet(bs[1..]);
      var head := QuoteByte(bs[0]);
      var t := QuoteBytes(bs);
      assert t == head + QuoteBytes(bs[1..]);
      forall i | 0 <= i < |t| ensures IsSafeChar(t[i]) || t[i] == '%' || IsHexDigit(t[i]) {
        if i >= |head| {
          assert t[i] == QuoteBytes(bs[1..])[i - |head|];
        }
      }
    }
  }

  /** The output of quote is made of safe characters and %XX escapes only. */
  lemma QuoteAlphabet(s: string)
    ensures IsQuoted(Quote(s))
  {
    QuoteBytesAlphabet(Utf8(s));
  }

  /** A string of safe characters comes out unchanged. */
  lemma {:induction false} QuoteSafe(s: string)
    requires forall i :: 0 <= i < |s| ==> IsSafeChar(s[i])
    ensures Quote(s) == s
    decreases |s|
  {
    if s != [] {
      QuoteSafe(s[1..]);
      assert Utf8Char(s[0]) == [s[0] as int];
      assert Utf8(s) == [s[0] as int] + Utf8(s[1..]);
      assert QuoteBytes(Utf8(s)) == QuoteByte(s[0] as int) + QuoteBytes(Utf8(s[1..]));
      assert s == [s[0]] + s[1..];
    }
  }

  /** Reading %XX escapes back as bytes and any other character as its own code. */
  function Unquote(t: string): (r: seq<int>)
    ensures |r| <= |t| && (r == [] <==> t == [])
    decreases |t|
  {
    if t == [] then []
    else if |t| >= 3 && t[0] == '%' && IsHexDigit(t[1]) && IsHexDigit(t[2]) then
      [HexValue(t[1]) * 16 + HexValue(t[2])] + Unquote(t[3..])
    else [t[0] as int] + Unquote(t[1..])
  }

  /** Undoing the escapes of one quoted byte gives back that byte. */
  lemma UnquoteByte(b: Byte, rest: string)
    ensures Unquote(QuoteByte(b) + rest) == [b] + Unquote(rest)
  {
    var t := QuoteByte(b) + rest;
    if IsSafeByte(b) {
      assert t[0] == b as char && t[1..] == rest;
    } else {
      assert t[1] == QuoteByte(b)[1] && t[2] == QuoteByte(b)[2];
      assert t[3..] == rest;
    }
  }

  /** Undoing the escapes gives back the bytes that were quoted. */
  lemma {:induction false} UnquoteQuoteBytes(bs: seq<Byte>)
    ensures Unquote(QuoteBytes(bs)) == bs
    decreases |bs|
  {
    if bs != [] {
      UnquoteQuoteBytes(bs[1..]);
      UnquoteByte(bs[0], QuoteBytes(bs[1..]));
      assert bs == [bs[0]] + bs[1..];
    }
  }

  /** quote loses nothing: unquoting its output gives the UTF-8 bytes of the input. */
  lemma UnquoteQuote(s: string)
    ensures Unquote(Quote(s)) == Utf8(s)
  {
    UnquoteQuoteBytes(Utf8(s));
  }
}
