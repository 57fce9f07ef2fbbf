/**
 * Byte-level encodings the gateway depends on: UTF-8 (what `TextEncoder`
 * produces, used for the WebDAV `Content-Length`) and the
 * `application/x-www-form-urlencoded` serializer that `URLSearchParams`
 * uses when the query string is turned back into text.
 */
module Encoding {
  import opened Strings

  /** An octet. */
  type Byte = b: int | 0 <= b < 256

  /** The UTF-8 bytes of one Unicode scalar value. */
  function Utf8Char(c: char): (bs: seq<Byte>)
    ensures 1 <= |bs| <= 4
    ensures |bs| == 1 <==> (c as int) < 0x80
  {
    var n := c as int;
    if n < 0x80 then [n]
    else if n < 0x800 then [0xC0 + n / 64, 0x80 + n % 64]
    else if n < 0x10000 then [0xE0 + n / 4096, 0x80 + (n / 64) % 64, 0x80 + n % 64]
    else [0xF0 + n / 262144, 0x80 + (n / 4096) % 64, 0x80 + (n / 64) % 64, 0x80 + n % 64]
  }

  /** Reads back the scalar value from the bytes of one encoded character. */
  function Utf8DecodeChar(bs: seq<Byte>): int
    requires 1 <= |bs| <= 4
  {
    var b: seq<int> := bs;
    if |b| == 1 then b[0]
    else if |b| == 2 then (b[0] - 0xC0) * 64 + (b[1] - 0x80)
    else if |b| == 3 then (b[0] - 0xE0) * 4096 + (b[1] - 0x80) * 64 + (b[2] - 0x80)
    else (b[0] - 0xF0) * 262144 + (b[1] - 0x80) * 4096 + (b[2] - 0x80) * 64 + (b[3] - 0x80)
  }

  /** Decoding the bytes of a character gives the character back. */
  lemma Utf8CharRoundTrip(c: char)
    ensures Utf8DecodeChar(Utf8Char(c)) == c as int
  {
    var n := c as int;
    if n < 0x80 {
    } else if n < 0x800 {
      assert n == (n / 64) * 64 + n % 64;
    } else if n < 0x10000 {
      ThreeDigits(n);
    } else {
      FourDigits(n);
    }
  }

  /** `n` written as base-64 digits above its two lowest ones. */
  lemma ThreeDigits(n: nat)
    ensures (n / 4096) * 4096 + ((n / 64) % 64) * 64 + n % 64 == n
  {
    assert n / 64 == (n / 4096) * 64 + (n / 64) % 64;
    assert n == (n / 64) * 64 + n % 64;
  }

  /** `n` written as base-64 digits above its three lowest ones. */
  lemma FourDigits(n: nat)
    ensures (n / 262144) * 262144 + ((n / 4096) % 64) * 4096 + ((n / 64) % 64) * 64 + n % 64 == n
  {
    assert n / 4096 == (n / 262144) * 64 + (n / 4096) % 64;
    ThreeDigits(n);
  }

  /** `new TextEncoder().encode(s)`. */
  function Utf8Encode(s: string): (bs: seq<Byte>)
    ensures |s| <= |bs| <= 4 * |s|
  {
    if s == [] then [] else Utf8Char(s[0]) + Utf8Encode(s[1..])
  }

  /** Encoding distributes over concatenation. */
  lemma {:induction false} Utf8EncodeAppend(a: string, b: string)
    ensures Utf8Encode(a + b) == Utf8Encode(a) + Utf8Encode(b)
  {
    if a != [] {
      assert (a + b)[0] == a[0];
      assert (a + b)[1..] == a[1..] + b;
      Utf8EncodeAppend(a[1..], b);
      calc {
        Utf8Encode(a + b);
        Utf8Char(a[0]) + Utf8Encode(a[1..] + b);
        Utf8Char(a[0]) + (Utf8Encode(a[1..]) + Utf8Encode(b));
        (Utf8Char(a[0]) + Utf8Encode(a[1..])) + Utf8Encode(b);
      }
    } else {
      assert a + b == b;
    }
  }

  /** Plain ASCII text takes one byte per character. */
  lemma {:induction false} Utf8AsciiLength(s: string)
    requires forall i :: 0 <= i < |s| ==> (s[i] as int) < 0x80
    ensures |Utf8Encode(s)| == |s|
  {
    if s != [] {
      Utf8AsciiLength(s[1..]);
    }
  }

  /** Any non-ASCII character makes the encoding longer than the character count. */
  lemma {:induction false} Utf8NonAsciiLonger(s: string, i: nat)
    requires i < |s| && (s[i] as int) >= 0x80
    ensures |Utf8Encode(s)| > |s|
  {
    if i > 0 {
      Utf8NonAsciiLonger(s[1..], i - 1);
    }
  }

  /** The byte values `URLSearchParams` leaves as they are: `*-._`, digits and ASCII letters. */
  predicate Unreserved(b: nat)
  {
    b == 0x2A || b == 0x2D || b == 0x2E || b == 0x5F
    || (0x30 <= b <= 0x39) || (0x41 <= b <= 0x5A) || (0x61 <= b <= 0x7A)
  }

  /** An upper-case hexadecimal digit. */
  function HexDigit(d: nat): (c: char)
    requires d < 16
    ensures ('0' <= c <= '9') || ('A' <= c <= 'F')
  {
    if d < 10 then ('0' as int + d) as char else ('A' as int + d - 10) as char
  }

  /** An upper-case hexadecimal digit character. */
  predicate IsHexDigit(c: char)
  {
    ('0' <= c <= '9') || ('A' <= c <= 'F')
  }

  /** The value of an upper-case hexadecimal digit; `HexDigit` is its inverse. */
  function HexValue(c: char): (d: nat)
    requires IsHexDigit(c)
    ensures d < 16 && HexDigit(d) == c
  {
    if c <= '9' then (c as int - '0' as int) else (c as int - 'A' as int + 10)
  }

  /** Reading a digit back gives the value it was written from. */
  lemma HexValueOfDigit(d: nat)
    requires d < 16
    ensures HexValue(HexDigit(d)) == d
  {
  }

  /** One byte in form encoding: itself, `+` for a space, `%XX` otherwise. */
  function FormByte(b: Byte): (r: string)
    ensures Unreserved(b) ==> r == [b as char]
    ensures b == 0x20 ==> r == "+"
    ensures !Unreserved(b) && b != 0x20 ==>
      && |r| == 3 && r[0] == '%' && IsHexDigit(r[1]) && IsHexDigit(r[2])
      && 16 * HexValue(r[1]) + HexValue(r[2]) == b as int
  {
    if Unreserved(b) then [b as char]
    else if b == 0x20 then "+"
    else ['%', HexDigit(b / 16), HexDigit(b % 16)]
  }

  /** Form-encodes a byte string. */
  function FormBytes(bs: seq<Byte>): string
  {
    if bs == [] then [] else FormByte(bs[0]) + FormBytes(bs[1..])
  }

  /** The `application/x-www-form-urlencoded` form of a name or value. */
  function FormEncode(s: string): string
  {
    FormBytes(Utf8Encode(s))
  }

  /** Form encoding works byte by byte, so it distributes over concatenation. */
  lemma {:induction false} FormBytesAppend(a: seq<Byte>, b: seq<Byte>)
    ensures FormBytes(a + b) == FormBytes(a) + FormBytes(b)
  {
    if a == [] {
      assert a + b == b;
    } else {
      assert (a + b)[0] == a[0];
      assert (a + b)[1..] == a[1..] + b;
      FormBytesAppend(a[1..], b);
    }
  }

  /** The form encoding of a concatenation is the concatenation of the encodings. */
  lemma FormEncodeAppend(a: string, b: string)
    ensures FormEncode(a + b) == FormEncode(a) + FormEncode(b)
  {
    Utf8EncodeAppend(a, b);
    FormBytesAppend(Utf8Encode(a), Utf8Encode(b));
  }

  /** A form-encoded byte string never holds the separators `&` and `=`, nor a space. */
  lemma {:induction false} FormBytesNoSeparators(bs: seq<Byte>)
    ensures '&' !in FormBytes(bs) && '=' !in FormBytes(bs) && ' ' !in FormBytes(bs)
  {
    if bs != [] {
      FormBytesNoSeparators(bs[1..]);
      var r := FormByte(bs[0]);
      if !Unreserved(bs[0]) && bs[0] != 0x20 {
        assert r == ['%', r[1], r[2]];
      }
    }
  }

  /** So no encoded name or value can run into its neighbours in a query string. */
  lemma FormEncodeNoSeparators(s: string)
    ensures '&' !in FormEncode(s) && '=' !in FormEncode(s) && ' ' !in FormEncode(s)
  {
    FormBytesNoSeparators(Utf8Encode(s));
  }

  /** A character the serializer leaves alone. */
  predicate PlainChar(c: char)
  {
    Unreserved(c as int)
  }

  /** A space is form-encoded as `+`. */
  lemma FormEncodeSpace()
    ensures FormEncode(" ") == "+"
  {
    assert Utf8Encode(" ") == Utf8Char(' ') + Utf8Encode([]);
    assert FormBytes([0x20]) == FormByte(0x20) + FormBytes([]);
  }

  /** Text made only of `*-._`, digits and ASCII letters is its own form encoding. */
  lemma {:induction false} FormEncodePlain(s: string)
    requires forall i :: 0 <= i < |s| ==> PlainChar(s[i])
    ensures FormEncode(s) == s
  {
    if s != [] {
      FormEncodePlain(s[1..]);
      assert Utf8Char(s[0]) == [s[0] as int];
      assert [s[0]] + s[1..] == s;
    }
  }
}
