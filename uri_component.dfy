/**
  `encodeURIComponent` as the mail links use it: every character outside the
  unreserved set is written as the percent-escaped bytes of its UTF-8
  encoding, with upper-case hexadecimal digits. Percent-decoding is its partner.
 */
module UriComponent {
  import opened Common

  /** The characters `encodeURIComponent` leaves as they are. */
  predicate Unreserved(c: char)
  {
    || 'A' <= c <= 'Z' || 'a' <= c <= 'z' || '0' <= c <= '9'
    || c in {'-', '_', '.', '!', '~', '*', '\'', '(', ')'}
  }

  predicate IsByte(b: int)
  {
    0 <= b < 256
  }

  predicate AllBytes(bs: seq<int>)
  {
    forall i :: 0 <= i < |bs| ==> IsByte(bs[i])
  }

  /** The UTF-8 encoding of one scalar value. */
  function Utf8(c: char): (bytes: seq<int>)
    ensures 1 <= |bytes| <= 4 && AllBytes(bytes)
    ensures |bytes| == 1 <==> (c as int) < 0x80
    ensures |bytes| == 1 ==> bytes[0] == c as int
  {
    var n := c as int;
    if n < 0x80 then [n]
    else if n < 0x800 then [0xC0 + n / 0x40, 0x80 + n % 0x40]
    else if n < 0x10000 then [0xE0 + n / 0x1000, 0x80 + (n / 0x40) % 0x40, 0x80 + n % 0x40]
    else [0xF0 + n / 0x40000, 0x80 + (n / 0x1000) % 0x40, 0x80 + (n / 0x40) % 0x40, 0x80 + n % 0x40]
  }

  /** The UTF-8 encoding of a string, character after character. */
  function Utf8Of(s: string): (bytes: seq<int>)
    ensures AllBytes(bytes)
  {
    if s == [] then [] else Utf8(s[0]) + Utf8Of(s[1..])
  }

  /** The upper-case hexadecimal digit for `d`. */
  function HexDigit(d: nat): char
    requires d < 16
  {
    if d < 10 then ('0' as int + d) as char else ('A' as int + d - 10) as char
  }

  predicate IsHexDigit(c: char)
  {
    '0' <= c <= '9' || 'A' <= c <= 'F' || 'a' <= c <= 'f'
  }

  /** The value of a hexadecimal digit of either case. */
  function HexValue(c: char): (r: Option<nat>)
    ensures r.Some? <==> IsHexDigit(c)
    ensures r.Some? ==> r.value < 16
  {
    if '0' <= c <= '9' then Some(c as int - '0' as int)
    else if 'A' <= c <= 'F' then Some(c as int - 'A' as int + 10)
    else if 'a' <= c <= 'f' then Some(c as int - 'a' as int + 10)
    else None
  }

  lemma HexRoundTrip(d: nat)
    requires d < 16
    ensures IsHexDigit(HexDigit(d)) && HexValue(HexDigit(d)) == Some(d)
  {
  }

  /** `%XY` for every byte, in order. */
  function PercentBytes(bs: seq<int>): (r: string)
    requires AllBytes(bs)
    ensures |r| == 3 * |bs|
  {
    if bs == [] then []
    else ['%', HexDigit(bs[0] / 16), HexDigit(bs[0] % 16)] + PercentBytes(bs[1..])
  }

  function EncodeChar(c: char): string
  {
    if Unreserved(c) then [c] else PercentBytes(Utf8(c))
  }

  /** A character of an encoded string: unreserved, a percent sign or a hexadecimal digit. */
  predicate EncodedChar(c: char)
  {
    Unreserved(c) || c == '%' || IsHexDigit(c)
  }

  lemma {:induction false} PercentBytesAlphabet(bs: seq<int>)
    requires AllBytes(bs)
    ensures forall i :: 0 <= i < |PercentBytes(bs)| ==> EncodedChar(PercentBytes(bs)[i])
  {
    if bs != [] {
      PercentBytesAlphabet(bs[1..]);
      HexRoundTrip(bs[0] / 16);
      HexRoundTrip(bs[0] % 16);
    }
  }

  /** `encodeURIComponent`: only unreserved characters, `%` and hexadecimal digits come out. */
  function Encode(s: string): (r: string)
    ensures forall i :: 0 <= i < |r| ==> EncodedChar(r[i])
  {
    if s == [] then []
    else
      PercentBytesAlphabet(Utf8(s[0]));
      EncodeChar(s[0]) + Encode(s[1..])
  }

  /** A string of unreserved characters is encoded as itself. */
  lemma {:induction false} EncodeKeepsUnreserved(s: string)
    requires forall i :: 0 <= i < |s| ==> Unreserved(s[i])
    ensures Encode(s) == s
  {
    if s != [] {
      EncodeKeepsUnreserved(s[1..]);
    }
  }

  /** An encoded string holds none of the delimiters of a mail link. */
  lemma EncodedHasNoDelimiters(s: string)
    ensures '&' !in Encode(s) && '?' !in Encode(s) && '=' !in Encode(s) && ',' !in Encode(s)
  {
  }

  /**
    Percent-decoding to bytes: `%XY` is one byte, any other ASCII character
    stands for itself; a truncated escape or a non-ASCII character fails.
   */
  function PercentDecode(s: string): Option<seq<int>>
    decreases |s|
  {
    if s == [] then Some([])
    else if s[0] == '%' then
      if |s| < 3 || HexValue(s[1]).None? || HexValue(s[2]).None? then None
      else
        var rest := PercentDecode(s[3..]);
        if rest.None? then None else Some([HexValue(s[1]).value * 16 + HexValue(s[2]).value] + rest.value)
    else if (s[0] as int) < 0x80 then
      var rest := PercentDecode(s[1..]);
      if rest.None? then None else Some([s[0] as int] + rest.value)
    else None
  }

  /** One escape decodes to its byte. */
  lemma DecodeEscape(b: int, tail: string, rest: seq<int>)
    requires IsByte(b) && PercentDecode(tail) == Some(rest)
    ensures PercentDecode(['%', HexDigit(b / 16), HexDigit(b % 16)] + tail) == Some([b] + rest)
  {
    var s := ['%', HexDigit(b / 16), HexDigit(b % 16)] + tail;
    HexRoundTrip(b / 16);
    HexRoundTrip(b % 16);
    assert s[1] == HexDigit(b / 16) && s[2] == HexDigit(b % 16) && s[3..] == tail;
  }

  lemma {:induction false} DecodePercentBytes(bs: seq<int>, tail: string, rest: seq<int>)
    requires AllBytes(bs) && PercentDecode(tail) == Some(rest)
    ensures PercentDecode(PercentBytes(bs) + tail) == Some(bs + rest)
  {
    if bs == [] {
      assert PercentBytes(bs) + tail == tail;
      assert bs + rest == rest;
    } else {
      DecodePercentBytes(bs[1..], tail, rest);
      DecodeFirstEscape(bs, tail, rest);
    }
  }

  /** Decoding the first escape of a run extends the decoding of the rest of the run. */
  lemma DecodeFirstEscape(bs: seq<int>, tail: string, rest: seq<int>)
    requires AllBytes(bs) && bs != [] && PercentDecode(PercentBytes(bs[1..]) + tail) == Some(bs[1..] + rest)
    ensures PercentDecode(PercentBytes(bs) + tail) == Some(bs + rest)
  {
    PercentBytesCons(bs, tail);
    DecodeEscape(bs[0], PercentBytes(bs[1..]) + tail, bs[1..] + rest);
    ConsSplit(bs, rest);
  }

  lemma ConsSplit(bs: seq<int>, rest: seq<int>)
    requires bs != []
    ensures [bs[0]] + (bs[1..] + rest) == bs + rest
  {
    assert bs == [bs[0]] + bs[1..];
  }

  lemma PercentBytesCons(bs: seq<int>, tail: string)
    requires AllBytes(bs) && bs != []
    ensures PercentBytes(bs) + tail == ['%', HexDigit(bs[0] / 16), HexDigit(bs[0] % 16)] + (PercentBytes(bs[1..]) + tail)
  {
  }

  /** Percent-decoding undoes `encodeURIComponent`, giving the UTF-8 bytes of the input. */
  lemma {:induction false} DecodeEncode(s: string)
    ensures PercentDecode(Encode(s)) == Some(Utf8Of(s))
  {
    if s != [] {
      DecodeEncode(s[1..]);
      var c, tail := s[0], Encode(s[1..]);
      assert Encode(s) == EncodeChar(c) + tail;
      if Unreserved(c) {
        assert ([c] + tail)[1..] == tail;
      } else {
        DecodePercentBytes(Utf8(c), tail, Utf8Of(s[1..]));
      }
    }
  }
}
