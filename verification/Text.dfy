/** The Python string operations the token code uses. */
module Text {
  import opened Wrappers

  /** `str.split(sep)` on a one-character separator. */
  function Split(s: string, sep: char): (r: seq<string>)
    ensures |r| >= 1
  {
    if s == "" then [""]
    else
      var rest := Split(s[1..], sep);
      if s[0] == sep then [""] + rest else [[s[0]] + rest[0]] + rest[1..]
  }

  lemma {:induction false} SplitPlain(a: string, sep: char)
    requires sep !in a
    ensures Split(a, sep) == [a]
  {
    if a != "" {
      assert forall c :: c in a[1..] ==> c in a;
      SplitPlain(a[1..], sep);
      assert [a[0]] + a[1..] == a;
    }
  }

  lemma {:induction false} SplitJoined(a: string, b: string, sep: char)
    requires sep !in a
    ensures Split(a + [sep] + b, sep) == [a] + Split(b, sep)
  {
    var s := a + [sep] + b;
    if a == "" {
      assert s[1..] == b;
    } else {
      assert forall c :: c in a[1..] ==> c in a;
      SplitJoined(a[1..], b, sep);
      assert s[1..] == a[1..] + [sep] + b;
      assert [a[0]] + a[1..] == a;
    }
  }

  /** A separator inside makes one more part. */
  lemma {:induction false} SplitSize(a: string, b: string, sep: char)
    ensures |Split(a + [sep] + b, sep)| == |Split(a, sep)| + |Split(b, sep)|
  {
    var s := a + [sep] + b;
    if a == "" {
      assert s[1..] == b;
    } else {
      SplitSize(a[1..], b, sep);
      assert s[1..] == a[1..] + [sep] + b;
    }
  }

  lemma {:induction false} SplitMany(a: string, sep: char)
    ensures |Split(a, sep)| >= 2 <==> sep in a
  {
    if a != "" {
      SplitMany(a[1..], sep);
      assert sep in a <==> a[0] == sep || sep in a[1..];
    }
  }

  /** `str.rpartition(sep)`: what is before and after the last separator, or None. */
  function RPartition(s: string, sep: char): Option<(string, string)> {
    if s == "" then None
    else if s[|s| - 1] == sep then Some((s[..|s| - 1], ""))
    else
      var front := RPartition(s[..|s| - 1], sep);
      if front.None? then None else Some((front.value.0, front.value.1 + [s[|s| - 1]]))
  }

  lemma {:induction false} RPartitionJoined(a: string, b: string, sep: char)
    requires sep !in b
    ensures RPartition(a + [sep] + b, sep) == Some((a, b))
  {
    var s := a + [sep] + b;
    if b == "" {
      assert s[..|s| - 1] == a;
    } else {
      assert b[|b| - 1] in b && forall c :: c in b[..|b| - 1] ==> c in b;
      RPartitionJoined(a, b[..|b| - 1], sep);
      assert s[..|s| - 1] == a + [sep] + b[..|b| - 1];
      assert b[..|b| - 1] + [b[|b| - 1]] == b;
    }
  }

  // ---- Decimal integers ----

  function DigitChar(d: int): char
    requires 0 <= d < 10
  {
    ('0' as int + d) as char
  }

  predicate IsDigit(c: char) { '0' <= c <= '9' }

  function DigitValue(c: char): int
    requires IsDigit(c)
  {
    c as int - '0' as int
  }

  function Numeral(n: nat): string {
    if n < 10 then [DigitChar(n)] else Numeral(n / 10) + [DigitChar(n % 10)]
  }

  /** `str(n)`. */
  function Decimal(n: int): string { if n < 0 then "-" + Numeral(-n) else Numeral(n) }

  /** Digits, with single underscores between them. */
  function ParseDigits(s: string): Option<nat> {
    if s == "" || !IsDigit(s[|s| - 1]) then None
    else if |s| == 1 then Some(DigitValue(s[0]))
    else
      var front := ParseDigits(if s[|s| - 2] == '_' then s[..|s| - 2] else s[..|s| - 1]);
      if front.None? then None else Some(10 * front.value + DigitValue(s[|s| - 1]))
  }

  predicate IsSpace(c: char) { c == ' ' || 9 <= c as int <= 13 }

  function Stripped(s: string): string {
    if s != "" && IsSpace(s[0]) then Stripped(s[1..])
    else if s != "" && IsSpace(s[|s| - 1]) then Stripped(s[..|s| - 1])
    else s
  }

  /** `int(s)` on ASCII text; None is ValueError. */
  function ParseInt(s: string): Option<int> {
    var t := Stripped(s);
    if t == "" then None
    else if t[0] == '-' then
      var n := ParseDigits(t[1..]);
      if n.None? then None else Some(0 - n.value as int)
    else ParseDigits(if t[0] == '+' then t[1..] else t)
  }

  lemma {:induction false} NumeralDigits(n: nat)
    ensures Numeral(n) != "" && forall i :: 0 <= i < |Numeral(n)| ==> IsDigit(Numeral(n)[i])
  {
    if n >= 10 { NumeralDigits(n / 10); }
  }

  lemma {:induction false} ParseNumeral(n: nat)
    ensures ParseDigits(Numeral(n)) == Some(n)
  {
    if n >= 10 {
      ParseNumeral(n / 10);
      NumeralDigits(n / 10);
      var s := Numeral(n);
      assert s[..|s| - 1] == Numeral(n / 10);
      assert IsDigit(s[|s| - 2]) by { assert s[|s| - 2] == Numeral(n / 10)[|s| - 2]; }
    }
  }

  /** Reading back a printed integer gives that integer. */
  lemma ParseDecimal(n: int)
    ensures ParseInt(Decimal(n)) == Some(n)
  {
    var m := if n < 0 then -n else n;
    NumeralDigits(m);
    ParseNumeral(m);
    if n < 0 { assert Decimal(n)[1..] == Numeral(m); }
  }

  /** A printed integer has digits and perhaps a sign, nothing else. */
  lemma DecimalPlain(n: int, c: char)
    requires !IsDigit(c) && c != '-'
    ensures c !in Decimal(n)
  {
    NumeralDigits(if n < 0 then -n else n);
  }
}
