/** The string operations the parsers rest on: search, split, decimal numbers. */
module Text {
  import opened Common

  /** The first position of a character. */
  function IndexOf(s: string, c: char): (i: Option<nat>)
    ensures i.None? ==> c !in s
    ensures i.Some? ==> i.value < |s| && s[i.value] == c && c !in s[..i.value]
  {
    if s == "" then None
    else if s[0] == c then Some(0)
    else
      var rest := IndexOf(s[1..], c);
      if rest.None? then None
      else
        assert s[..rest.value + 1] == [s[0]] + s[1..][..rest.value];
        Some(rest.value + 1)
  }

  lemma IndexOfFirst(a: string, c: char, b: string)
    requires c !in a
    ensures IndexOf(a + [c] + b, c) == Some(|a|)
  {
    var s := a + [c] + b;
    var i := IndexOf(s, c);
    assert s[|a|] == c;
    assert forall k | 0 <= k < |a| :: s[k] == a[k];
    assert forall k | 0 <= k < i.value :: s[..i.value][k] == s[k];
  }

  /** The parts between separators; one part if there is none. */
  function Split(s: string, c: char): (parts: seq<string>)
    ensures |parts| >= 1
    ensures forall i | 0 <= i < |parts| :: c !in parts[i]
    decreases |s|
  {
    var i := IndexOf(s, c);
    if i.None? then [s] else [s[..i.value]] + Split(s[i.value + 1..], c)
  }

  function Join(parts: seq<string>, c: char): string {
    if parts == [] then ""
    else if |parts| == 1 then parts[0]
    else parts[0] + [c] + Join(parts[1..], c)
  }

  /** Splitting undoes joining for parts free of the separator. */
  lemma {:induction false} SplitOfJoin(parts: seq<string>, c: char)
    requires |parts| >= 1 && forall i | 0 <= i < |parts| :: c !in parts[i]
    ensures Split(Join(parts, c), c) == parts
  {
    if |parts| == 1 {
    } else {
      var tail := Join(parts[1..], c);
      var s := Join(parts, c);
      IndexOfFirst(parts[0], c, tail);
      assert s[..|parts[0]|] == parts[0] && s[|parts[0]| + 1..] == tail;
      SplitOfJoin(parts[1..], c);
    }
  }

  predicate IsDigit(c: char) {
    '0' <= c <= '9'
  }

  predicate AllDigits(s: string) {
    forall i | 0 <= i < |s| :: IsDigit(s[i])
  }

  function DigitValue(c: char): (d: nat)
    requires IsDigit(c)
    ensures d < 10
  {
    c as nat - '0' as nat
  }

  function Digit(d: nat): (c: char)
    requires d < 10
    ensures IsDigit(c) && DigitValue(c) == d
  {
    ('0' as int + d) as char
  }

  /** The decimal form without leading zeros. */
  function Decimal(n: nat): (s: string)
    ensures s != "" && AllDigits(s)
  {
    if n < 10 then [Digit(n)] else Decimal(n / 10) + [Digit(n % 10)]
  }

  /** The number a digit string stands for, read from the left onto an accumulator. */
  function Value(s: string, acc: nat): (v: nat)
    requires AllDigits(s)
    ensures v >= acc
  {
    if s == "" then acc else Value(s[1..], 10 * acc + DigitValue(s[0]))
  }

  lemma {:induction false} ValueOneMore(s: string, c: char, acc: nat)
    requires AllDigits(s) && IsDigit(c)
    ensures AllDigits(s + [c]) && Value(s + [c], acc) == 10 * Value(s, acc) + DigitValue(c)
  {
    if s == "" {
      assert s + [c] == [c];
      assert [c][1..] == "";
    } else {
      assert (s + [c])[1..] == s[1..] + [c];
      ValueOneMore(s[1..], c, 10 * acc + DigitValue(s[0]));
    }
  }

  /** Reading back what was printed. */
  lemma {:induction false} ValueOfDecimal(n: nat)
    ensures Value(Decimal(n), 0) == n
  {
    if n < 10 {
      assert Decimal(n)[1..] == "";
    } else {
      ValueOfDecimal(n / 10);
      ValueOneMore(Decimal(n / 10), Digit(n % 10), 0);
    }
  }

  lemma DecimalIsInjective(m: nat, n: nat)
    ensures Decimal(m) == Decimal(n) <==> m == n
  {
    ValueOfDecimal(m);
    ValueOfDecimal(n);
  }

  /** The library's number parser with the error dropped: 0 on a syntax error, the maximum as soon as
      the digits read so far exceed it. */
  function Scan(s: string, acc: nat, max: nat): (v: nat)
    requires acc <= max
    ensures v <= max
  {
    if s == "" then acc
    else if !IsDigit(s[0]) then 0
    else
      var next := 10 * acc + DigitValue(s[0]);
      if next > max then max else Scan(s[1..], next, max)
  }

  function ParseUint(s: string, max: nat): (v: nat)
    ensures v <= max
  {
    if s == "" then 0 else Scan(s, 0, max)
  }

  lemma {:induction false} ScanSaturates(s: string, acc: nat, max: nat)
    requires AllDigits(s) && acc <= max
    ensures Scan(s, acc, max) == if Value(s, acc) <= max then Value(s, acc) else max
  {
    if s != "" {
      var next := 10 * acc + DigitValue(s[0]);
      if next <= max {
        ScanSaturates(s[1..], next, max);
      }
    }
  }

  /** Printing then parsing returns the number, or the maximum if it is larger. */
  lemma ParseOfDecimal(n: nat, max: nat)
    ensures ParseUint(Decimal(n), max) == if n <= max then n else max
  {
    ValueOfDecimal(n);
    ScanSaturates(Decimal(n), 0, max);
  }

  /** A text without the separator is one part; the part in front of the first separator is split off first. */
  lemma SplitInWords(a: string, c: char, b: string)
    requires c !in a
    ensures Split(a, c) == [a]
    ensures Split(a + [c] + b, c) == [a] + Split(b, c)
  {
    var s := a + [c] + b;
    IndexOfFirst(a, c, b);
    assert s[..|a|] == a && s[|a| + 1..] == b;
  }

  /** Decimal digits by place: the last digit is the remainder by ten, and what is in front of it prints the
      quotient, or nothing for a number below ten. */
  lemma DecimalByPlace(n: nat)
    ensures |Decimal(n)| >= 1
    ensures Decimal(n)[|Decimal(n)| - 1] == "0123456789"[n % 10]
    ensures Decimal(n)[..|Decimal(n)| - 1] == if n < 10 then "" else Decimal(n / 10)
  {
    DigitInWords(n % 10);
  }

  lemma DigitInWords(d: nat)
    requires d < 10
    ensures Digit(d) == "0123456789"[d]
  {
    assert Digit(d) as int == '0' as int + d;
    assert "0123456789"[d] as int == '0' as int + d;
  }

  /** A text with anything but digits, and no number beyond the maximum in front of it, reads as 0; so does no
      text at all. */
  lemma {:induction false} ScanRejects(digits: string, c: char, rest: string, acc: nat, max: nat)
    requires AllDigits(digits) && !IsDigit(c) && acc <= max
    ensures Scan(digits + [c] + rest, acc, max) == if Value(digits, acc) <= max then 0 else max
  {
    var s := digits + [c] + rest;
    if digits == "" {
      assert s[0] == c;
    } else {
      assert s[0] == digits[0] && s[1..] == digits[1..] + [c] + rest;
      var next := 10 * acc + DigitValue(digits[0]);
      if next <= max {
        ScanRejects(digits[1..], c, rest, next, max);
      }
    }
  }

  lemma ParseRejects(n: nat, c: char, rest: string, max: nat)
    requires c < '0' || c > '9'
    ensures ParseUint("", max) == 0 && ParseUint([c] + rest, max) == 0
    ensures ParseUint(Decimal(n) + [c] + rest, max) == if n <= max then 0 else max
  {
    ScanRejects("", c, rest, 0, max);
    assert "" + [c] + rest == [c] + rest;
    ScanRejects(Decimal(n), c, rest, 0, max);
    ValueOfDecimal(n);
  }
}
