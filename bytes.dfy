/** Bytes, hexadecimal text and the small conversions the capture tool relies on:
    hex encoding of byte lists (upper case for responses, lower case for commands),
    hex decoding (the tool's `toBytes`, `bytes.fromhex` and `binascii.unhexlify`),
    Python's `{n:X}` integer formatting, big-endian accumulation and the
    `decode('ascii', errors='ignore')` filter. */
module Bytes {

  import opened Results

  /** A byte as the card returns it: an integer in 0..255. */
  type byte = b: int | 0 <= b < 256

  function Min(a: int, b: int): int { if a < b then a else b }

  function Max(a: int, b: int): int { if a < b then b else a }

  // ---------------------------------------------------------------------------
  // Hex digits

  function UpperDigit(d: int): (c: char)
    requires 0 <= d < 16
    ensures ('0' <= c <= '9') || ('A' <= c <= 'F')
  {
    if d < 10 then ('0' as int + d) as char else ('A' as int + d - 10) as char
  }

  function LowerDigit(d: int): (c: char)
    requires 0 <= d < 16
    ensures ('0' <= c <= '9') || ('a' <= c <= 'f')
  {
    if d < 10 then ('0' as int + d) as char else ('a' as int + d - 10) as char
  }

  /** The value of one hex digit as `int(c, 16)` reads it, either case. */
  function DigitValue(c: char): (r: Option<int>)
    ensures r.Some? ==> 0 <= r.value < 16
    ensures r.Some? <==> ('0' <= c <= '9' || 'a' <= c <= 'f' || 'A' <= c <= 'F')
  {
    if '0' <= c <= '9' then Some(c as int - '0' as int)
    else if 'a' <= c <= 'f' then Some(c as int - 'a' as int + 10)
    else if 'A' <= c <= 'F' then Some(c as int - 'A' as int + 10)
    else None
  }

  lemma DigitRoundTrip(d: int)
    requires 0 <= d < 16
    ensures DigitValue(UpperDigit(d)) == Some(d)
    ensures DigitValue(LowerDigit(d)) == Some(d)
  {
  }

  // ---------------------------------------------------------------------------
  // Byte lists as hex text

  /** Upper-case hex of a byte list, two digits per byte, no separators. */
  function UpperHex(bs: seq<byte>): (s: string)
    ensures |s| == 2 * |bs|
  {
    if bs == [] then "" else [UpperDigit(bs[0] / 16), UpperDigit(bs[0] % 16)] + UpperHex(bs[1..])
  }

  /** Lower-case hex of a byte list, two digits per byte, no separators. */
  function LowerHex(bs: seq<byte>): (s: string)
    ensures |s| == 2 * |bs|
  {
    if bs == [] then "" else [LowerDigit(bs[0] / 16), LowerDigit(bs[0] % 16)] + LowerHex(bs[1..])
  }

  lemma {:induction false} UpperHexAppend(a: seq<byte>, b: seq<byte>)
    ensures UpperHex(a + b) == UpperHex(a) + UpperHex(b)
  {
    if a != [] {
      assert (a + b)[0] == a[0];
      assert (a + b)[1..] == a[1..] + b;
      UpperHexAppend(a[1..], b);
    } else {
      assert a + b == b;
    }
  }

  /** The tool's `toBytes`: consecutive pairs of hex digits become bytes; a single
      trailing digit is dropped; a pair that is not hex is an error. */
  function FromHex(s: string): (r: Option<seq<byte>>)
    ensures r.Some? ==> |r.value| == |s| / 2
  {
    if |s| < 2 then Some([])
    else
      match (DigitValue(s[0]), DigitValue(s[1]))
      case (Some(hi), Some(lo)) =>
        (match FromHex(s[2..])
         case Some(rest) => Some([hi * 16 + lo] + rest)
         case None => None)
      case _ => None
  }

  /** `binascii.unhexlify`: like `FromHex` but text of odd length is an error. */
  function Unhexlify(s: string): (r: Option<seq<byte>>)
    ensures r.Some? ==> 2 * |r.value| == |s|
  {
    if |s| % 2 == 1 then None else FromHex(s)
  }

  /** Hex text of either case decodes back to the bytes it was made from. */
  lemma {:induction false} FromUpperHex(bs: seq<byte>)
    ensures FromHex(UpperHex(bs)) == Some(bs)
    ensures Unhexlify(UpperHex(bs)) == Some(bs)
  {
    if bs != [] {
      var s := UpperHex(bs);
      assert s[2..] == UpperHex(bs[1..]);
      DigitRoundTrip(bs[0] / 16);
      DigitRoundTrip(bs[0] % 16);
      FromUpperHex(bs[1..]);
      assert [bs[0]] + bs[1..] == bs;
    }
  }

  lemma {:induction false} FromLowerHex(bs: seq<byte>)
    ensures FromHex(LowerHex(bs)) == Some(bs)
  {
    if bs != [] {
      var s := LowerHex(bs);
      assert s[2..] == LowerHex(bs[1..]);
      DigitRoundTrip(bs[0] / 16);
      DigitRoundTrip(bs[0] % 16);
      FromLowerHex(bs[1..]);
      assert [bs[0]] + bs[1..] == bs;
    }
  }

  /** Decoding text that is the concatenation of two even-length parts decodes
      each part on its own. */
  lemma {:induction false} FromHexAppend(s: string, t: string)
    requires |s| % 2 == 0
    ensures FromHex(s + t) == (match (FromHex(s), FromHex(t))
                               case (Some(a), Some(b)) => Some(a + b)
                               case _ => None)
  {
    if |s| >= 2 {
      assert (s + t)[2..] == s[2..] + t;
      assert (s + t)[0] == s[0] && (s + t)[1] == s[1];
      FromHexAppend(s[2..], t);
      match (DigitValue(s[0]), DigitValue(s[1]), FromHex(s[2..]), FromHex(t))
      case (Some(hi), Some(lo), Some(a), Some(b)) =>
        assert [hi * 16 + lo] + (a + b) == ([hi * 16 + lo] + a) + b;
      case _ =>
    } else {
      assert s == [];
      assert s + t == t;
      match FromHex(t)
      case Some(b) => assert [] + b == b;
      case None =>
    }
  }

  // ---------------------------------------------------------------------------
  // ASCII text

  /** Python's `str.lower()` on ASCII text. */
  function Lower(s: string): (r: string)
    ensures |r| == |s|
    ensures forall k :: 0 <= k < |s| ==> r[k] == (if 'A' <= s[k] <= 'Z' then (s[k] as int + 32) as char else s[k])
  {
    if s == [] then "" else [if 'A' <= s[0] <= 'Z' then (s[0] as int + 32) as char else s[0]] + Lower(s[1..])
  }

  /** Lower-casing one upper-case hex digit gives the lower-case digit. */
  lemma LowerOfUpperDigits(x: int, y: int)
    requires 0 <= x < 16 && 0 <= y < 16
    ensures Lower([UpperDigit(x), UpperDigit(y)]) == [LowerDigit(x), LowerDigit(y)]
  {
  }

  /** Lower-casing works character by character. */
  lemma {:induction false} LowerAppend(a: string, b: string)
    ensures Lower(a + b) == Lower(a) + Lower(b)
  {
    if a == [] {
      assert a + b == b;
    } else {
      assert (a + b)[0] == a[0];
      assert (a + b)[1..] == a[1..] + b;
      LowerAppend(a[1..], b);
    }
  }

  /** Lower-casing the upper-case hex of a byte list gives its lower-case hex. */
  lemma {:induction false} LowerOfUpperHex(bs: seq<byte>)
    ensures Lower(UpperHex(bs)) == LowerHex(bs)
  {
    if bs != [] {
      var x, y := bs[0] / 16, bs[0] % 16;
      var d, rest := [UpperDigit(x), UpperDigit(y)], UpperHex(bs[1..]);
      assert UpperHex(bs) == d + rest;
      LowerAppend(d, rest);
      LowerOfUpperDigits(x, y);
      LowerOfUpperHex(bs[1..]);
    }
  }

  /** `bytes.decode('ascii', errors='ignore')`: bytes below 0x80 become the characters
      they encode, the others are dropped. */
  function AsciiIgnore(bs: seq<byte>): (s: string)
    ensures |s| <= |bs|
    ensures forall k :: 0 <= k < |s| ==> s[k] as int < 0x80
  {
    if bs == [] then ""
    else (if bs[0] < 0x80 then [bs[0] as char] else []) + AsciiIgnore(bs[1..])
  }

  /** When every byte is ASCII nothing is dropped: the text is the bytes themselves. */
  lemma {:induction false} AsciiIgnoreAllAscii(bs: seq<byte>)
    requires forall k :: 0 <= k < |bs| ==> bs[k] < 0x80
    ensures |AsciiIgnore(bs)| == |bs|
    ensures forall k :: 0 <= k < |bs| ==> AsciiIgnore(bs)[k] as int == bs[k]
  {
    if bs != [] {
      AsciiIgnoreAllAscii(bs[1..]);
    }
  }

  /** One byte decodes to its character when it is ASCII and to nothing otherwise. */
  lemma AsciiIgnoreOne(b: byte)
    ensures AsciiIgnore([b]) == if b < 0x80 then [b as char] else []
  {
    assert [b][1..] == [];
  }

  /** The decoding works byte by byte: decoding a concatenation concatenates the
      decodings, so which bytes are kept, and their order, follow from the one-byte
      case. */
  lemma {:induction false} AsciiIgnoreAppend(a: seq<byte>, b: seq<byte>)
    ensures AsciiIgnore(a + b) == AsciiIgnore(a) + AsciiIgnore(b)
  {
    if a == [] {
      assert a + b == b;
    } else {
      assert (a + b)[0] == a[0];
      assert (a + b)[1..] == a[1..] + b;
      AsciiIgnoreAppend(a[1..], b);
    }
  }

  /** A non-ASCII byte between two letters is dropped and the letters are kept in
      order: `b"A\xc3B"` decodes to "AB". */
  lemma AsciiIgnoreMixed()
    ensures AsciiIgnore([0x41, 0xC3, 0x42]) == "AB"
  {
    AsciiIgnoreAppend([0x41], [0xC3, 0x42]);
    AsciiIgnoreAppend([0xC3], [0x42]);
    assert [0x41] + [0xC3, 0x42] == [0x41, 0xC3, 0x42];
    assert [0xC3] + [0x42] == [0xC3, 0x42];
    AsciiIgnoreOne(0x41);
    AsciiIgnoreOne(0xC3);
    AsciiIgnoreOne(0x42);
  }

  /** The bytes of an ASCII text, as Python's `list(b"...")` gives them. */
  function AsciiBytes(s: string): (bs: seq<byte>)
    requires forall k :: 0 <= k < |s| ==> s[k] as int < 0x80
    ensures |bs| == |s|
    ensures forall k :: 0 <= k < |s| ==> bs[k] == s[k] as int
  {
    if s == [] then [] else [s[0] as int] + AsciiBytes(s[1..])
  }

  // ---------------------------------------------------------------------------
  // Integers

  /** Big-endian value of a byte list, as `(x << 8) | b` accumulates it. */
  function BigEndian(bs: seq<byte>): nat
  {
    if bs == [] then 0 else BigEndian(bs[..|bs| - 1]) * 256 + bs[|bs| - 1]
  }

  /** One big-endian accumulation step: `(x << 8) | b` on a byte `b` is `x * 256 + b`. */
  lemma BigEndianSnoc(bs: seq<byte>, b: byte)
    ensures BigEndian(bs + [b]) == BigEndian(bs) * 256 + b
  {
    assert (bs + [b])[..|bs|] == bs;
  }

  /** Python's `f"{n:X}"`: the minimal upper-case hex digits of `n` ("0" for zero). */
  function NatHex(n: nat): (s: string)
    ensures |s| >= 1
    decreases n
  {
    if n < 16 then [UpperDigit(n)] else NatHex(n / 16) + [UpperDigit(n % 16)]
  }

  /** Left-pads with '0' up to `width` characters, as a format width with flag `0` does. */
  function PadLeft(s: string, width: nat): (r: string)
    ensures |r| == Max(|s|, width)
    ensures r[|r| - |s|..] == s
    ensures forall k :: 0 <= k < |r| - |s| ==> r[k] == '0'
  {
    if |s| >= width then s else seq(width - |s|, _ => '0') + s
  }

  /** Python's `f"{n:02X}"` (and `"%-0.2X" % n` of the tool's hex-string helper). */
  function Format02X(n: nat): string
  {
    if n < 16 then ['0', UpperDigit(n)] else NatHex(n)
  }

  /** ... which is the minimal digits padded to width 2. */
  lemma Format02XPadded(n: nat)
    ensures Format02X(n) == PadLeft(NatHex(n), 2)
  {
    if n >= 16 {
      assert NatHex(n) == NatHex(n / 16) + [UpperDigit(n % 16)];
    }
  }

  /** On a byte, `f"{b:02X}"` is exactly the two-digit upper-case hex of that byte. */
  lemma Format02XByte(b: byte)
    ensures Format02X(b) == UpperHex([b])
  {
    if b >= 16 {
      assert NatHex(b) == NatHex(b / 16) + [UpperDigit(b % 16)];
    }
  }

  /** A big-endian number is at least its first byte. */
  lemma {:induction false} BigEndianAtLeastFirst(bs: seq<byte>)
    requires bs != []
    ensures BigEndian(bs) >= bs[0]
  {
    if |bs| > 1 {
      var init := bs[..|bs| - 1];
      assert init[0] == bs[0];
      BigEndianAtLeastFirst(init);
    }
  }

  /** With two or more bytes, a big-endian number is at least 256 times its first byte. */
  lemma BigEndianOfTwoOrMore(bs: seq<byte>)
    requires |bs| >= 2
    ensures BigEndian(bs) >= bs[0] as int * 256
  {
    var init := bs[..|bs| - 1];
    assert init[0] == bs[0];
    BigEndianAtLeastFirst(init);
  }

  /** The two hex digits that one more low byte adds to a number. */
  lemma HexDigitSteps(m: nat, b: byte)
    ensures (m * 256 + b) / 16 == m * 16 + b / 16 && (m * 256 + b) % 16 == b % 16
    ensures (m * 16 + b / 16) / 16 == m && (m * 16 + b / 16) % 16 == b / 16
  {
  }

  /** The minimal hex of a big-endian number whose first byte is at least 0x10 is the
      two-digit-per-byte hex of its bytes: no digit is lost or added. */
  lemma {:induction false} NatHexBigEndian(bs: seq<byte>)
    requires bs != [] && bs[0] >= 16
    ensures NatHex(BigEndian(bs)) == UpperHex(bs)
  {
    if |bs| == 1 {
      assert bs == [] + [bs[0]];
      BigEndianSnoc([], bs[0]);
      assert NatHex(bs[0]) == NatHex(bs[0] / 16) + [UpperDigit(bs[0] % 16)];
    } else {
      var init, b := bs[..|bs| - 1], bs[|bs| - 1];
      assert init + [b] == bs;
      assert init[0] == bs[0];
      NatHexBigEndian(init);
      var m := BigEndian(init);
      BigEndianAtLeastFirst(init);
      var x := m * 256 + b;
      assert BigEndian(bs) == x;
      var y := m * 16 + b / 16;
      HexDigitSteps(m, b);
      assert NatHex(x) == NatHex(y) + [UpperDigit(b % 16)];
      assert NatHex(y) == NatHex(m) + [UpperDigit(b / 16)];
      UpperHexAppend(init, [b]);
    }
  }

  // ---------------------------------------------------------------------------
  // The hex text of byte lists and command lists

  /** `toHexString(xs).replace(" ", "")`: the tool writes each element `a` as
      `"%-0.2X" % ((a + 256) % 256)`, so an element is taken modulo 256 and written as
      two upper-case digits, concatenated. */
  function HexString(xs: seq<nat>): string
  {
    if xs == [] then [] else Format02X(xs[0] % 256) + HexString(xs[1..])
  }

  /** The byte each element of a list stands for in its hex text. */
  function Wrap(xs: seq<nat>): (bs: seq<byte>)
    ensures |bs| == |xs|
    ensures forall k :: 0 <= k < |xs| ==> bs[k] == xs[k] % 256
  {
    if xs == [] then [] else [xs[0] % 256] + Wrap(xs[1..])
  }

  /** A list of bytes is its own wrap. */
  lemma {:induction false} WrapOfBytes(xs: seq<nat>)
    requires forall k :: 0 <= k < |xs| ==> xs[k] < 256
    ensures Wrap(xs) == xs
  {
    if xs != [] {
      WrapOfBytes(xs[1..]);
      assert xs[0] % 256 == xs[0];
      assert xs == [xs[0]] + xs[1..];
    }
  }

  /** Wrapping leaves a list unchanged exactly when all its elements are bytes. */
  lemma WrapIdentity(xs: seq<nat>)
    ensures Wrap(xs) == xs <==> forall k :: 0 <= k < |xs| ==> xs[k] < 256
  {
    var w := Wrap(xs);
    if forall k :: 0 <= k < |xs| ==> xs[k] < 256 {
      WrapOfBytes(xs);
    }
    if w == xs {
      forall k | 0 <= k < |xs| ensures xs[k] < 256 {
        assert xs[k] == w[k];
      }
    }
  }

  /** The hex text of any list is the upper-case hex of its elements modulo 256: an
      element above 255 is written as its low byte, not as three digits. */
  lemma {:induction false} HexStringWraps(xs: seq<nat>)
    ensures HexString(xs) == UpperHex(Wrap(xs))
  {
    if xs != [] {
      HexStringWraps(xs[1..]);
      Format02XByte(xs[0] % 256);
      assert Wrap(xs) == [xs[0] % 256] + Wrap(xs[1..]);
      UpperHexAppend([xs[0] % 256], Wrap(xs[1..]));
    }
  }

  /** A length of 257 (255 data bytes plus two) is written "01". */
  lemma LengthTextWraps()
    ensures HexString([257]) == "01"
  {
    assert Format02X(257 % 256) == ['0', UpperDigit(1)];
  }

  /** On bytes, the hex text is exactly two upper-case digits per byte. */
  lemma HexStringOfBytes(bs: seq<byte>)
    ensures HexString(bs) == UpperHex(bs)
  {
    HexStringWraps(bs);
    WrapOfBytes(bs);
  }

  lemma {:induction false} HexStringAppend(a: seq<nat>, b: seq<nat>)
    ensures HexString(a + b) == HexString(a) + HexString(b)
  {
    if a == [] {
      assert a + b == b;
    } else {
      assert (a + b)[0] == a[0];
      assert (a + b)[1..] == a[1..] + b;
      HexStringAppend(a[1..], b);
    }
  }

  /** `[0x00] * n`. */
  function Zeros(n: nat): (r: seq<byte>)
    ensures |r| == n && forall k :: 0 <= k < n ==> r[k] == 0
  {
    seq(n, _ => 0)
  }
}
