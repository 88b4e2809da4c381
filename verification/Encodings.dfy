/** UTF-8 (section 3 of RFC 3629): strict encoding and decoding of text. */
module Utf8 {
  import opened Wrappers

  type Byte = b: int | 0 <= b < 256

  function EncodeChar(c: char): (r: seq<Byte>)
    ensures 1 <= |r| <= 4
  {
    var n := c as int;
    if n < 0x80 then [n]
    else if n < 0x800 then [0xC0 + n / 64, 0x80 + n % 64]
    else if n < 0x10000 then [0xE0 + n / 4096, 0x80 + n / 64 % 64, 0x80 + n % 64]
    else [0xF0 + n / 262144, 0x80 + n / 4096 % 64, 0x80 + n / 64 % 64, 0x80 + n % 64]
  }

  function Encode(s: string): seq<Byte> {
    if s == "" then [] else EncodeChar(s[0]) + Encode(s[1..])
  }

  predicate IsTail(b: Byte) { 0x80 <= b < 0xC0 }

  function Two(a: int, b: int): int { (a - 0xC0) * 64 + (b - 0x80) }
  function Three(a: int, b: int, c: int): int { (a - 0xE0) * 4096 + (b - 0x80) * 64 + (c - 0x80) }
  function Four(a: int, b: int, c: int, d: int): int {
    (a - 0xF0) * 262144 + (b - 0x80) * 4096 + (c - 0x80) * 64 + (d - 0x80)
  }

  /** The code point of the first character, and how many bytes it takes. */
  function First(bs: seq<Byte>): Option<(int, nat)>
    requires bs != []
  {
    var b := bs[0];
    if b < 0x80 then Some((b as int, 1))
    else if 0xC2 <= b < 0xE0 && |bs| >= 2 && IsTail(bs[1]) then Some((Two(b, bs[1]), 2))
    else if 0xE0 <= b < 0xF0 && |bs| >= 3 && IsTail(bs[1]) && IsTail(bs[2]) then Some((Three(b, bs[1], bs[2]), 3))
    else if 0xF0 <= b < 0xF5 && |bs| >= 4 && IsTail(bs[1]) && IsTail(bs[2]) && IsTail(bs[3]) then
      Some((Four(b, bs[1], bs[2], bs[3]), 4))
    else None
  }

  lemma Digits64(n: int)
    requires 0 <= n < 0x110000
    ensures n == n / 64 * 64 + n % 64
    ensures n == n / 4096 * 4096 + n / 64 % 64 * 64 + n % 64
    ensures n == n / 262144 * 262144 + n / 4096 % 64 * 4096 + n / 64 % 64 * 64 + n % 64
  {
    var a := n / 64;
    var b := a / 64;
    Nested(n, a, b);
    assert n == 64 * a + n % 64 && a == 64 * b + a % 64 && b == 64 * (b / 64) + b % 64;
  }

  lemma Nested(n: int, a: int, b: int)
    requires n >= 0 && a == n / 64 && b == a / 64
    ensures n / 4096 == b && n / 262144 == b / 64
  {
  }

  /** A code point in the range its length is for, and no surrogate. */
  predicate Fits(n: int, width: nat) {
    && (width == 1 ==> 0 <= n < 0x80)
    && (width == 2 ==> 0x80 <= n < 0x800)
    && (width == 3 ==> 0x800 <= n < 0xD800 || 0xE000 <= n < 0x10000)
    && (width == 4 ==> 0x10000 <= n < 0x110000)
    && 1 <= width <= 4
  }

  function Decode(bs: seq<Byte>): Option<string> {
    if bs == [] then Some("")
    else
      var first := First(bs);
      if first.None? || !Fits(first.value.0, first.value.1) then None
      else
        var rest := Decode(bs[first.value.1..]);
        if rest.None? then None else Some([first.value.0 as char] + rest.value)
  }

  lemma FirstOfChar(c: char, rest: seq<Byte>)
    ensures First(EncodeChar(c) + rest) == Some((c as int, |EncodeChar(c)|))
    ensures Fits(c as int, |EncodeChar(c)|)
  {
    var n := c as int;
    Digits64(n);
    var own, bs := EncodeChar(c), EncodeChar(c) + rest;
    assert bs[0] == own[0] && (n >= 0x80 ==> bs[1] == own[1]);
    assert (n >= 0x800 ==> bs[2] == own[2]) && (n >= 0x10000 ==> bs[3] == own[3]);
  }

  /** Decoding inverts encoding. */
  lemma {:induction false} RoundTrip(s: string)
    ensures Decode(Encode(s)) == Some(s)
  {
    if s != "" {
      RoundTrip(s[1..]);
      FirstOfChar(s[0], Encode(s[1..]));
      var bs := Encode(s);
      assert bs[|EncodeChar(s[0])|..] == Encode(s[1..]);
      assert s == [s[0]] + s[1..];
    }
  }

  /** One character of each length, as RFC 3629 encodes it. */
  lemma SampleCharacters()
    ensures Encode("A") == [0x41] && Encode("\U{E9}") == [0xC3, 0xA9] && Encode("\U{20AC}") == [0xE2, 0x82, 0xAC]
    ensures Encode("\U{10348}") == [0xF0, 0x90, 0x8D, 0x88]
  {
    assert Encode("") == [];
    assert Encode("A") == EncodeChar('A') + [] && Encode("\U{E9}") == EncodeChar('\U{E9}') + [];
    assert Encode("\U{20AC}") == EncodeChar('\U{20AC}') + [];
    assert Encode("\U{10348}") == EncodeChar('\U{10348}') + [];
  }
}

/** Base64 with the URL-safe alphabet (section 5 of RFC 4648), and CPython's lenient decoder. */
module Base64 {
  import opened Wrappers
  import opened Utf8

  function Digit(n: int): char
    requires 0 <= n < 64
  {
    if n < 26 then ('A' as int + n) as char
    else if n < 52 then ('a' as int + n - 26) as char
    else if n < 62 then ('0' as int + n - 52) as char
    else if n == 62 then '-' else '_'
  }

  /** The value of a digit; `urlsafe_b64decode` also lets the standard alphabet's + and / through. */
  function Value(c: char): Option<int> {
    if 'A' <= c <= 'Z' then Some(c as int - 'A' as int)
    else if 'a' <= c <= 'z' then Some(c as int - 'a' as int + 26)
    else if '0' <= c <= '9' then Some(c as int - '0' as int + 52)
    else if c == '-' || c == '+' then Some(62)
    else if c == '_' || c == '/' then Some(63)
    else None
  }

  lemma ValueOfDigit(n: int)
    requires 0 <= n < 64
    ensures Value(Digit(n)) == Some(n) && Digit(n) != '=' && Digit(n) != '.' && (Digit(n) as int) < 128
  {
  }

  /** `urlsafe_b64encode`, padding included. */
  function Encode(bs: seq<Byte>): string {
    if bs == [] then ""
    else if |bs| == 1 then Group1(bs[0]) + "=="
    else if |bs| == 2 then Group2(bs[0], bs[1]) + "="
    else Group3(bs[0], bs[1], bs[2]) + Encode(bs[3..])
  }

  function Group1(a: Byte): string { [Digit(a / 4), Digit(a % 4 * 16)] }

  function Group2(a: Byte, b: Byte): string { [Digit(a / 4), Digit(a % 4 * 16 + b / 16), Digit(b % 16 * 4)] }

  function Group3(a: Byte, b: Byte, c: Byte): string {
    [Digit(a / 4), Digit(a % 4 * 16 + b / 16), Digit(b % 16 * 4 + c / 64), Digit(c % 64)]
  }

  /** `rstrip("=")`. */
  function Stripped(s: string): string {
    if s != "" && s[|s| - 1] == '=' then Stripped(s[..|s| - 1]) else s
  }

  function Padding(n: nat): string {
    match n % 4
    case 0 => ""
    case 1 => "==="
    case 2 => "=="
    case _ => "="
  }

  /**
   `a2b_base64` from a place within a group of four: `pos` digits of the group were read, `left`
   holds the bits not yet written, `pads` counts the padding seen since the last digit. Other
   characters are skipped.
   */
  function DecodeFrom(s: string, pos: int, left: int, pads: int): Option<seq<Byte>>
    requires 0 <= pos < 4 && 0 <= left < 64 && (pos == 2 ==> left < 16) && (pos == 3 ==> left < 4)
  {
    if s == "" then if pos == 0 then Some([]) else None
    else if s[0] == '=' then
      if pos >= 2 && pos + pads + 1 >= 4 then Some([])
      else DecodeFrom(s[1..], pos, left, if pos >= 2 then pads + 1 else pads)
    else
      var v := Value(s[0]);
      if v.None? then DecodeFrom(s[1..], pos, left, pads)
      else
        match pos
        case 0 => DecodeFrom(s[1..], 1, v.value, 0)
        case 1 => Then(left * 4 + v.value / 16, DecodeFrom(s[1..], 2, v.value % 16, 0))
        case 2 => Then(left * 16 + v.value / 4, DecodeFrom(s[1..], 3, v.value % 4, 0))
        case _ => Then(left * 64 + v.value, DecodeFrom(s[1..], 0, 0, 0))
  }

  function Then(b: Byte, rest: Option<seq<Byte>>): Option<seq<Byte>> {
    if rest.None? then None else Some([b] + rest.value)
  }

  function Decode(s: string): Option<seq<Byte>> { DecodeFrom(s, 0, 0, 0) }

  lemma DecodeDigit(n: int, rest: string, pos: int, left: int)
    requires 0 <= n < 64 && 0 <= pos < 4 && 0 <= left < 64 && (pos == 2 ==> left < 16) && (pos == 3 ==> left < 4)
    ensures DecodeFrom([Digit(n)] + rest, pos, left, 0)
            == if pos == 0 then DecodeFrom(rest, 1, n, 0)
               else if pos == 1 then Then(left * 4 + n / 16, DecodeFrom(rest, 2, n % 16, 0))
               else if pos == 2 then Then(left * 16 + n / 4, DecodeFrom(rest, 3, n % 4, 0))
               else Then(left * 64 + n, DecodeFrom(rest, 0, 0, 0))
  {
    ValueOfDigit(n);
    assert ([Digit(n)] + rest)[1..] == rest;
  }

  /** Three bytes cut into sextets and put together again. */
  lemma Regroup(a: Byte, b: Byte, c: Byte)
    ensures var w, x, y, z := a / 4, a % 4 * 16 + b / 16, b % 16 * 4 + c / 64, c % 64;
            && 0 <= w < 64 && 0 <= x < 64 && 0 <= y < 64 && 0 <= z < 64
            && w * 4 + x / 16 == a && x % 16 * 16 + y / 4 == b && y % 4 * 64 + z == c
  {
  }

  lemma DecodeGroup3(a: Byte, b: Byte, c: Byte, rest: string)
    ensures Decode(Group3(a, b, c) + rest) == Then(a, Then(b, Then(c, Decode(rest))))
  {
    var w, x, y, z := a / 4, a % 4 * 16 + b / 16, b % 16 * 4 + c / 64, c % 64;
    var s3 := [Digit(z)] + rest;
    var s2 := [Digit(y)] + s3;
    var s1 := [Digit(x)] + s2;
    assert Group3(a, b, c) + rest == [Digit(w)] + s1;
    Regroup(a, b, c);
    DecodeDigit(w, s1, 0, 0);
    DecodeDigit(x, s2, 1, w);
    DecodeDigit(y, s3, 2, x % 16);
    DecodeDigit(z, rest, 3, y % 4);
  }

  lemma DecodeGroup2(a: Byte, b: Byte)
    ensures Decode(Group2(a, b) + "=") == Some([a, b])
  {
    var w, x, y := a / 4, a % 4 * 16 + b / 16, b % 16 * 4;
    var s2 := [Digit(y)] + "=";
    var s1 := [Digit(x)] + s2;
    assert Group2(a, b) + "=" == [Digit(w)] + s1;
    Regroup(a, b, 0);
    DecodeDigit(w, s1, 0, 0);
    DecodeDigit(x, s2, 1, w);
    DecodeDigit(y, "=", 2, x % 16);
    assert DecodeFrom("=", 3, 0, 0) == Some([]);
    assert [a] + ([b] + []) == [a, b];
  }

  lemma DecodeGroup1(a: Byte)
    ensures Decode(Group1(a) + "==") == Some([a])
  {
    var w, x := a / 4, a % 4 * 16;
    var s1 := [Digit(x)] + "==";
    assert Group1(a) + "==" == [Digit(w)] + s1;
    DecodeDigit(w, s1, 0, 0);
    DecodeDigit(x, "==", 1, w);
    assert "=="[1..] == "=";
    assert [a] + [] == [a];
  }

  lemma SampleGroups()
    ensures Group1(102) == "Zg" && Group2(102, 111) == "Zm8"
    ensures Group3(102, 111, 111) == "Zm9v" && Group3(98, 97, 114) == "YmFy" && Group3(251, 255, 191) == "-_-_"
  {
  }

  /** Test vectors of section 10 of RFC 4648 ("f", "fo", "foo" and "foobar"), and the digits of its section 5. */
  lemma TestVectors()
    ensures Encode([102]) == "Zg==" && Encode([102, 111]) == "Zm8="
    ensures Encode([102, 111, 111]) == "Zm9v" && Encode([102, 111, 111, 98, 97, 114]) == "Zm9vYmFy"
    ensures Encode([251, 255, 191]) == "-_-_"
  {
    SampleGroups();
    var foo, bar, urlSafe := [102, 111, 111], [98, 97, 114], [251, 255, 191];
    assert urlSafe[3..] == [] && Encode(urlSafe) == "-_-_" + "";
    assert foo[3..] == [] && bar[3..] == [] && (foo + bar)[3..] == bar;
    assert Encode(foo) == "Zm9v" + "" && Encode(bar) == "YmFy" + "";
    assert foo + bar == [102, 111, 111, 98, 97, 114];
    assert Encode(foo + bar) == "Zm9v" + Encode(bar) == "Zm9vYmFy";
    assert Encode([102]) == "Zg" + "==" == "Zg==" && Encode([102, 111]) == "Zm8" + "=" == "Zm8=";
  }

  /** Decoding inverts encoding. */
  lemma {:induction false} RoundTrip(bs: seq<Byte>)
    ensures Decode(Encode(bs)) == Some(bs)
  {
    if |bs| == 1 {
      DecodeGroup1(bs[0]);
      assert bs == [bs[0]];
    } else if |bs| == 2 {
      DecodeGroup2(bs[0], bs[1]);
      assert bs == [bs[0], bs[1]];
    } else if bs != [] {
      DecodeGroup3(bs[0], bs[1], bs[2], Encode(bs[3..]));
      RoundTrip(bs[3..]);
      assert [bs[0]] + ([bs[1]] + ([bs[2]] + bs[3..])) == bs;
    }
  }

  /** The digits of an encoding, without the padding. */
  function Digits(bs: seq<Byte>): string {
    if bs == [] then ""
    else if |bs| == 1 then Group1(bs[0])
    else if |bs| == 2 then Group2(bs[0], bs[1])
    else Group3(bs[0], bs[1], bs[2]) + Digits(bs[3..])
  }

  predicate Plain(c: char) { c != '=' && c != '.' && (c as int) < 128 }

  lemma {:induction false} DigitsPlain(bs: seq<Byte>)
    ensures forall c :: c in Digits(bs) ==> Plain(c)
  {
    forall n | 0 <= n < 64
      ensures Plain(Digit(n))
    {
      ValueOfDigit(n);
    }
    if |bs| > 2 { DigitsPlain(bs[3..]); }
  }

  lemma PaddingRepeats(n: nat)
    ensures Padding(4 + n) == Padding(n)
  {
  }

  lemma GroupPadded(group: string, rest: string, encoded: string)
    requires |group| == 4 && encoded == rest + Padding(|rest|)
    ensures group + encoded == (group + rest) + Padding(|group + rest|)
  {
    PaddingRepeats(|rest|);
  }

  lemma {:induction false} DigitsPadded(bs: seq<Byte>)
    ensures Encode(bs) == Digits(bs) + Padding(|Digits(bs)|)
  {
    if |bs| > 2 {
      DigitsPadded(bs[3..]);
      GroupPadded(Group3(bs[0], bs[1], bs[2]), Digits(bs[3..]), Encode(bs[3..]));
    }
  }

  lemma {:induction false} StrippedPadding(s: string, pad: string)
    requires s == "" || s[|s| - 1] != '='
    requires forall i :: 0 <= i < |pad| ==> pad[i] == '='
    ensures Stripped(s + pad) == s
  {
    if pad == "" {
      assert s + pad == s;
    } else {
      StrippedPadding(s, pad[..|pad| - 1]);
      assert (s + pad)[..|s + pad| - 1] == s + pad[..|pad| - 1];
    }
  }

  lemma DigitsEnd(bs: seq<Byte>)
    ensures var digits := Digits(bs); digits == "" || digits[|digits| - 1] != '='
  {
    DigitsPlain(bs);
    var digits := Digits(bs);
    assert digits != "" ==> Plain(digits[|digits| - 1]);
  }

  /** Stripping the padding leaves the digits, and their count says what padding restores the encoding. */
  lemma StripAndPad(bs: seq<Byte>)
    ensures Stripped(Encode(bs)) == Digits(bs)
    ensures Digits(bs) + Padding(|Digits(bs)|) == Encode(bs)
  {
    var digits, encoded := Digits(bs), Encode(bs);
    DigitsPadded(bs);
    DigitsEnd(bs);
    StripDigits(digits, encoded);
  }

  lemma StripDigits(digits: string, encoded: string)
    requires encoded == digits + Padding(|digits|) && (digits == "" || digits[|digits| - 1] != '=')
    ensures Stripped(encoded) == digits
  {
    StrippedPadding(digits, Padding(|digits|));
  }
}
