/** ULIDs (_internal/ids.py): 128-bit identifiers in 26 digits of Crockford base 32. */
module Ulid {
  import opened Ordering

  const ALPHABET := "0123456789ABCDEFGHJKMNPQRSTVWXYZ"
  const WIDTH: nat := 26
  const TIME_SPAN: int := 0x1_0000_0000_0000
  const RANDOM_SPAN: int := 0x1_0000_0000_0000_0000_0000

  function Reversed(s: string): string {
    if s == "" then "" else Reversed(s[1..]) + [s[0]]
  }

  /** The low `width` base-32 digits of a value, most significant first. */
  function Digits(value: nat, width: nat): (r: string)
    ensures |r| == width
  {
    if width == 0 then "" else Digits(value / 32, width - 1) + [ALPHABET[value % 32]]
  }

  function Shifted(value: nat, n: nat): nat { if n == 0 then value else Shifted(value, n - 1) / 32 }

  lemma {:induction false} ShiftedOnce(value: nat, n: nat)
    ensures Shifted(value / 32, n) == Shifted(value, n) / 32
  {
    if n > 0 { ShiftedOnce(value, n - 1); }
  }

  lemma {:induction false} ReversedSnoc(s: string, c: char)
    ensures Reversed(s + [c]) == [c] + Reversed(s)
  {
    if s == "" {
      assert [c][1..] == "";
    } else {
      ReversedSnoc(s[1..], c);
      assert (s + [c])[1..] == s[1..] + [c];
    }
  }

  /** The digits of a value: those of what is left after `n` shifts, then the `n` shifted out. */
  lemma {:induction false} DigitsShifted(value: nat, n: nat, width: nat, chars: string)
    requires n < width && Digits(value, width) == Digits(Shifted(value, n), width - n) + Reversed(chars)
    ensures Digits(value, width)
            == Digits(Shifted(value, n + 1), width - n - 1) + Reversed(chars + [ALPHABET[Shifted(value, n) % 32]])
  {
    ReversedSnoc(chars, ALPHABET[Shifted(value, n) % 32]);
  }

  /** `_encode`. */
  method Encode(value: nat) returns (r: string)
    ensures r == Digits(value, WIDTH)
  {
    var chars := "";
    var rest := value;
    for i := 0 to WIDTH
      invariant rest == Shifted(value, i)
      invariant Digits(value, WIDTH) == Digits(rest, WIDTH - i) + Reversed(chars)
    {
      DigitsShifted(value, i, WIDTH, chars);
      chars := chars + [ALPHABET[rest % 32]];
      rest := rest / 32;
    }
    r := Reversed(chars);
  }

  /** `new_ulid` for a clock reading in milliseconds and 80 random bits. */
  function Value(millis: int, random: nat): nat
    requires random < RANDOM_SPAN
  {
    millis % TIME_SPAN * RANDOM_SPAN + random
  }

  method NewUlid(millis: int, random: nat) returns (r: string)
    requires random < RANDOM_SPAN
    ensures r == Digits(Value(millis, random), WIDTH)
  {
    r := Encode(Value(millis, random));
  }

  // ---- The order of the alphabet ----

  lemma AlphabetAscends(i: nat, j: nat)
    requires i < j < 32
    ensures ALPHABET[i] < ALPHABET[j]
  {
    assert forall k :: 0 <= k < 31 ==> ALPHABET[k] < ALPHABET[k + 1];
    AdjacentAscend(ALPHABET, i, j);
  }

  lemma {:induction false} AdjacentAscend(s: string, i: nat, j: nat)
    requires i < j < |s| && forall k :: 0 <= k < |s| - 1 ==> s[k] < s[k + 1]
    ensures s[i] < s[j]
  {
    if i < j - 1 { AdjacentAscend(s, i, j - 1); }
  }

  /** The character class `[0-9A-HJKMNP-TV-Z]`. */
  predicate InClass(c: char) {
    '0' <= c <= '9' || 'A' <= c <= 'H' || c == 'J' || c == 'K' || c == 'M' || c == 'N'
    || 'P' <= c <= 'T' || 'V' <= c <= 'Z'
  }

  /** The value of a digit. */
  function DigitOf(c: char): nat
    requires InClass(c)
    ensures DigitOf(c) < 32
  {
    var n := c as int;
    if c <= '9' then n - 48
    else if c <= 'H' then n - 55
    else if c <= 'K' then n - 56
    else if c <= 'N' then n - 57
    else if c <= 'T' then n - 58
    else n - 59
  }

  /** The class and the alphabet are the same characters. */
  lemma ClassIsAlphabet(n: nat)
    requires n < 32
    ensures InClass(ALPHABET[n]) && DigitOf(ALPHABET[n]) == n
  {
  }

  lemma DigitReads(c: char)
    requires InClass(c)
    ensures ALPHABET[DigitOf(c)] == c
  {
  }

  // ---- Encoding and its inverse ----

  predicate IsText(s: string) { forall i :: 0 <= i < |s| ==> InClass(s[i]) }

  function Read(s: string): nat
    requires IsText(s)
  {
    if s == "" then 0 else 32 * Read(s[..|s| - 1]) + DigitOf(s[|s| - 1])
  }

  function Pow32(n: nat): (r: nat)
    ensures r >= 1
  {
    if n == 0 then 1 else 32 * Pow32(n - 1)
  }

  lemma {:induction false} DigitsText(value: nat, width: nat)
    ensures IsText(Digits(value, width))
  {
    if width > 0 {
      DigitsText(value / 32, width - 1);
      ClassIsAlphabet(value % 32);
    }
  }

  lemma QuotientFits(value: nat, width: nat)
    requires width > 0 && value < Pow32(width)
    ensures value / 32 < Pow32(width - 1)
  {
  }

  /** Reading the digits of a value that fits gives the value back. */
  lemma {:induction false} ReadDigits(value: nat, width: nat)
    requires value < Pow32(width)
    ensures IsText(Digits(value, width)) && Read(Digits(value, width)) == value
  {
    DigitsText(value, width);
    if width > 0 {
      QuotientFits(value, width);
      ReadDigits(value / 32, width - 1);
      ClassIsAlphabet(value % 32);
      assert Digits(value, width)[..width - 1] == Digits(value / 32, width - 1);
    }
  }

  lemma DigitsGrow(q: nat, r: nat, width: nat)
    requires r < 32
    ensures Digits(32 * q + r, width + 1) == Digits(q, width) + [ALPHABET[r]]
  {
    Undo(q, r);
  }

  lemma Undo(q: nat, r: nat)
    requires r < 32
    ensures (32 * q + r) / 32 == q && (32 * q + r) % 32 == r
  {
  }

  lemma {:induction false} ReadFits(s: string)
    requires IsText(s)
    ensures Read(s) < Pow32(|s|)
  {
    if s != "" { ReadFits(s[..|s| - 1]); }
  }

  lemma ReadLast(front: string, last: char)
    requires IsText(front) && InClass(last)
    ensures IsText(front + [last]) && Read(front + [last]) == 32 * Read(front) + DigitOf(last)
  {
    assert (front + [last])[..|front|] == front;
  }

  /** `s` is the digits of `value`. */
  ghost predicate Spells(value: nat, s: string) { Digits(value, |s|) == s }

  lemma SpellsMore(front: string, last: char, q: nat, v: nat, s: string)
    requires InClass(last) && Spells(q, front) && s == front + [last] && v == 32 * q + DigitOf(last)
    ensures Spells(v, s)
  {
    DigitReads(last);
    DigitsGrow(q, DigitOf(last), |front|);
  }

  lemma ReadSpellsMore(front: string, last: char, s: string)
    requires IsText(front) && InClass(last) && Spells(Read(front), front) && s == front + [last]
    ensures IsText(s) && Spells(Read(s), s)
  {
    ReadLast(front, last);
    SpellsMore(front, last, Read(front), Read(s), s);
  }

  lemma {:induction false} ReadSpells(s: string)
    requires IsText(s)
    ensures Spells(Read(s), s)
  {
    if s != "" {
      ReadSpells(s[..|s| - 1]);
      ReadSpellsMore(s[..|s| - 1], s[|s| - 1], s);
    }
  }

  /** Every text of valid characters is the digits of the value it reads as. */
  lemma DigitsOfRead(s: string)
    requires IsText(s)
    ensures Digits(Read(s), |s|) == s
  {
    ReadSpells(s);
  }

  // ---- Order ----

  lemma {:induction false} TextSnoc(a: string, b: string, x: char, y: char)
    requires |a| == |b|
    ensures TextLess(a + [x], b + [y]) <==> TextLess(a, b) || (a == b && x < y)
  {
    if a == "" {
      assert a + [x] == [x] && b + [y] == [y];
    } else {
      TextSnoc(a[1..], b[1..], x, y);
      assert (a + [x])[1..] == a[1..] + [x] && (b + [y])[1..] == b[1..] + [y];
      assert a == [a[0]] + a[1..] && b == [b[0]] + b[1..];
    }
  }

  /** Texts compare as the values they encode. */
  lemma {:induction false} DigitsOrder(v: nat, w: nat, width: nat)
    requires v < Pow32(width) && w < Pow32(width)
    ensures TextLess(Digits(v, width), Digits(w, width)) <==> v < w
  {
    if width > 0 {
      QuotientFits(v, width);
      QuotientFits(w, width);
      DigitsOrder(v / 32, w / 32, width - 1);
      var a, b := Digits(v / 32, width - 1), Digits(w / 32, width - 1);
      TextSnoc(a, b, ALPHABET[v % 32], ALPHABET[w % 32]);
      SameDigits(v / 32, w / 32, width - 1);
      LastDigit(v % 32, w % 32);
    }
  }

  lemma SameDigits(v: nat, w: nat, width: nat)
    requires v < Pow32(width) && w < Pow32(width)
    ensures Digits(v, width) == Digits(w, width) <==> v == w
  {
    ReadDigits(v, width);
    ReadDigits(w, width);
  }

  lemma LastDigit(v: nat, w: nat)
    requires v < 32 && w < 32
    ensures ALPHABET[v] < ALPHABET[w] <==> v < w
  {
    if v < w { AlphabetAscends(v, w); }
    if w < v { AlphabetAscends(w, v); }
  }

  // ---- ULIDs ----

  lemma Spans()
    ensures Pow32(WIDTH) == 4 * TIME_SPAN * RANDOM_SPAN
    ensures Pow32(WIDTH - 1) * 8 == TIME_SPAN * RANDOM_SPAN
  {
    assert Pow32(3) == 0x8000 && Pow32(5) == 32 * (32 * Pow32(3));
    PowAdd(5, 5);
    PowAdd(10, 10);
    PowAdd(20, 5);
    assert Pow32(26) == 32 * Pow32(25);
  }

  lemma {:induction false} PowAdd(m: nat, n: nat)
    ensures Pow32(m + n) == Pow32(m) * Pow32(n)
  {
    if m > 0 { PowAdd(m - 1, n); }
  }

  lemma ProductBelow(t: nat, random: nat)
    requires t < TIME_SPAN && random < RANDOM_SPAN
    ensures t * RANDOM_SPAN + random < TIME_SPAN * RANDOM_SPAN
  {
  }

  lemma ValueFits(millis: int, random: nat)
    requires random < RANDOM_SPAN
    ensures Value(millis, random) < TIME_SPAN * RANDOM_SPAN < Pow32(WIDTH)
  {
    Spans();
    ProductBelow(millis % TIME_SPAN, random);
  }

  lemma TimeDominates(t: nat, u: nat, r: nat, q: nat)
    requires r < RANDOM_SPAN && q < RANDOM_SPAN && t < u
    ensures t * RANDOM_SPAN + r < u * RANDOM_SPAN + q
  {
  }

  /** ULIDs sort by their 48-bit timestamps whatever the randomness, and within one millisecond by the random bits. */
  lemma UlidsSortByTime(t: int, u: int, r: nat, q: nat)
    requires r < RANDOM_SPAN && q < RANDOM_SPAN
    ensures TextLess(Digits(Value(t, r), WIDTH), Digits(Value(u, q), WIDTH))
            <==> t % TIME_SPAN < u % TIME_SPAN || (t % TIME_SPAN == u % TIME_SPAN && r < q)
  {
    ValueFits(t, r);
    ValueFits(u, q);
    DigitsOrder(Value(t, r), Value(u, q), WIDTH);
    if t % TIME_SPAN < u % TIME_SPAN { TimeDominates(t % TIME_SPAN, u % TIME_SPAN, r, q); }
    if u % TIME_SPAN < t % TIME_SPAN { TimeDominates(u % TIME_SPAN, t % TIME_SPAN, q, r); }
  }

  /** Creation order is text order for every clock reading before the timestamp wraps. */
  lemma CreationOrder(t: int, u: int, r: nat, q: nat)
    requires r < RANDOM_SPAN && q < RANDOM_SPAN && 0 <= t < u < TIME_SPAN
    ensures TextLess(Digits(Value(t, r), WIDTH), Digits(Value(u, q), WIDTH))
  {
    UlidsSortByTime(t, u, r, q);
  }

  /** `is_ulid`: the pattern's `$` also matches before a final newline. */
  predicate IsUlid(s: string) {
    || (|s| == WIDTH && IsText(s))
    || (|s| == WIDTH + 1 && IsText(s[..WIDTH]) && s[WIDTH] == '\n')
  }

  lemma TextExactly(s: string)
    ensures |s| == WIDTH && IsText(s) <==> exists v: nat :: v < Pow32(WIDTH) && s == Digits(v, WIDTH)
  {
    if |s| == WIDTH && IsText(s) {
      ReadFits(s);
      DigitsOfRead(s);
    }
    if v: nat :| v < Pow32(WIDTH) && s == Digits(v, WIDTH) { DigitsText(v, WIDTH); }
  }

  /** The valid texts are the encodings of the values below 2^130, and those with a newline appended. */
  lemma IsUlidExactly(s: string)
    ensures IsUlid(s)
            <==> || (exists v: nat :: v < Pow32(WIDTH) && s == Digits(v, WIDTH))
                 || (s != "" && s[|s| - 1] == '\n'
                     && exists v: nat :: v < Pow32(WIDTH) && s[..|s| - 1] == Digits(v, WIDTH))
  {
    TextExactly(s);
    if s != "" { TextExactly(s[..|s| - 1]); }
  }

  lemma {:induction false} LeadingDigit(value: nat, width: nat)
    requires width > 0 && value < Pow32(width)
    ensures Leading(value, width) < 32 && Digits(value, width)[0] == ALPHABET[Leading(value, width)]
  {
    if width > 1 {
      QuotientFits(value, width);
      LeadingDigit(value / 32, width - 1);
      DivideTwice(value, Pow32(width - 2));
      assert Digits(value, width)[0] == Digits(value / 32, width - 1)[0];
    }
  }

  function Leading(value: nat, width: nat): nat
    requires width > 0
  {
    Whole(value, Pow32(width - 1))
  }

  function Whole(n: nat, d: nat): nat
    requires d >= 1
  {
    n / d
  }

  lemma DivideTwice(n: nat, d: nat)
    requires d > 0
    ensures n / 32 / d == n / (32 * d)
  {
    var q := n / (32 * d);
    var r := n - 32 * d * q;
    assert 0 <= r < 32 * d;
    assert n / 32 == d * q + r / 32;
    assert 0 <= r / 32 < d;
    Quotient(n / 32, d, q, r / 32);
  }

  lemma Quotient(n: int, d: int, q: int, r: int)
    requires d > 0 && 0 <= r < d && n == d * q + r
    ensures n / d == q
  {
    var k := n / d - q;
    Scaled(n / d, q, k, d);
    assert d * k == r - n % d;
    Multiple(d, k);
  }

  lemma Scaled(a: int, b: int, k: int, d: int)
    requires k == a - b
    ensures d * k == d * a - d * b
  {
  }

  lemma Multiple(d: int, k: int)
    requires d > 0
    ensures k >= 1 ==> d * k >= d
    ensures k <= -1 ==> d * k <= -d
  {
  }

  /** A 128-bit value starts with a digit of at most 7, and only such values do. */
  lemma FirstDigit(value: nat)
    requires value < Pow32(WIDTH)
    ensures value < TIME_SPAN * RANDOM_SPAN <==> Digits(value, WIDTH)[0] <= '7'
  {
    Spans();
    LeadingDigit(value, WIDTH);
    EighthPower(value, Pow32(WIDTH - 1));
    ClassIsAlphabet(Leading(value, WIDTH));
  }

  lemma EighthPower(value: nat, d: nat)
    requires d > 0
    ensures value < d * 8 <==> value / d < 8
  {
  }
}
