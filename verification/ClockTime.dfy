/** Local clock times, their printed form and the strict text parser. */
module ClockTime {
  import opened RuntimeContracts

  datatype Time = Time(hour: nat, minute: nat, second: nat, micro: nat) {
    predicate Valid() {
      hour < 24 && minute < 60 && second < 60 && micro < 1_000_000
    }
    /** Microseconds since midnight; times compare like these. */
    function Micros(): int {
      ((hour * 60 + minute) * 60 + second) * 1_000_000 + micro
    }
  }

  /** Times compare by hour, then minute, then second, then microsecond. */
  lemma MicrosInOrder(a: Time, b: Time)
    requires a.Valid() && b.Valid()
    ensures a.Micros() < b.Micros() <==>
      || a.hour < b.hour
      || (a.hour == b.hour && a.minute < b.minute)
      || (a.hour == b.hour && a.minute == b.minute && a.second < b.second)
      || (a.hour == b.hour && a.minute == b.minute && a.second == b.second && a.micro < b.micro)
    ensures a.Micros() == b.Micros() <==> a == b
  {
    assert a.Micros() == a.hour * 3_600_000_000 + a.minute * 60_000_000 + a.second * 1_000_000 + a.micro;
    assert b.Micros() == b.hour * 3_600_000_000 + b.minute * 60_000_000 + b.second * 1_000_000 + b.micro;
  }

  // ---------------------------------------------------------------- digits

  predicate IsDigit(c: char) { '0' <= c <= '9' }

  predicate Digits(s: string) { forall i :: 0 <= i < |s| ==> IsDigit(s[i]) }

  function DigitValue(c: char): nat
    requires IsDigit(c)
  {
    c as int - '0' as int
  }

  function Digit(n: int): (c: char)
    requires 0 <= n < 10
    ensures IsDigit(c) && DigitValue(c) == n
  {
    ('0' as int + n) as char
  }

  function Value(s: string): nat
    requires Digits(s)
  {
    if s == "" then 0 else Value(s[..|s| - 1]) * 10 + DigitValue(s[|s| - 1])
  }

  function Power(k: nat): (p: int)
    ensures p >= 1
  {
    if k == 0 then 1 else 10 * Power(k - 1)
  }

  /** `n` in exactly `k` digits. */
  function Pad(n: nat, k: nat): (s: string)
    ensures |s| == k && Digits(s)
  {
    if k == 0 then "" else Pad(n / 10, k - 1) + [Digit(n % 10)]
  }

  lemma {:induction false} ValueRange(s: string)
    requires Digits(s)
    ensures 0 <= Value(s) < Power(|s|)
    decreases |s|
  {
    if s != "" { ValueRange(s[..|s| - 1]); }
  }

  lemma {:induction false} ValueOfPad(n: nat, k: nat)
    requires n < Power(k)
    ensures Value(Pad(n, k)) == n
  {
    if k > 0 {
      ValueOfPad(n / 10, k - 1);
      var s := Pad(n, k);
      assert s[..k - 1] == Pad(n / 10, k - 1);
    }
  }

  lemma LastDigit(n: nat, d: nat)
    requires d < 10
    ensures (n * 10 + d) / 10 == n && (n * 10 + d) % 10 == d
  {
  }

  lemma PadOneMore(n: nat, d: nat, k: nat)
    requires d < 10
    ensures Pad(n * 10 + d, k + 1) == Pad(n, k) + [Digit(d)]
  {
    LastDigit(n, d);
  }

  lemma DigitOfValue(c: char)
    requires IsDigit(c)
    ensures DigitValue(c) < 10 && Digit(DigitValue(c)) == c
  {
  }

  lemma {:induction false} PadOfValue(s: string)
    requires Digits(s)
    ensures Pad(Value(s), |s|) == s
    decreases |s|
  {
    if s != "" {
      var front, c := s[..|s| - 1], s[|s| - 1];
      PadOfValue(front);
      DigitOfValue(c);
      PadOneMore(Value(front), DigitValue(c), |front|);
      assert s == front + [c];
    }
  }

  lemma Powers()
    ensures Power(1) == 10 && Power(2) == 100 && Power(3) == 1_000
    ensures Power(4) == 10_000 && Power(5) == 100_000 && Power(6) == 1_000_000
  {
    assert Power(2) == 10 * Power(1);
    assert Power(3) == 10 * Power(2);
    assert Power(4) == 10 * Power(3);
    assert Power(5) == 10 * Power(4);
    assert Power(6) == 10 * Power(5);
  }

  // ---------------------------------------------------------------- printing and parsing

  function Minutes(t: Time): string {
    Pad(t.hour, 2) + [':'] + Pad(t.minute, 2)
  }

  /** Seconds are printed only when they or the fraction are not zero, the fraction only when it is not. */
  function Format(t: Time): string {
    if t.second == 0 && t.micro == 0 then Minutes(t)
    else if t.micro == 0 then Minutes(t) + [':'] + Pad(t.second, 2)
    else Minutes(t) + [':'] + Pad(t.second, 2) + ['.'] + Pad(t.micro, 6)
  }

  /** Two digits at `i`, below `limit`. */
  predicate TwoDigits(s: string, i: nat, limit: int) {
    i + 2 <= |s| && Digits(s[i..i + 2]) && Value(s[i..i + 2]) < limit
  }

  /** HH:MM[:SS[.f{1,6}]] with hours below 24, minutes and seconds below 60. */
  predicate Matches(s: string) {
    && TwoDigits(s, 0, 24) && |s| >= 5 && s[2] == ':' && TwoDigits(s, 3, 60)
    && (|s| > 5 ==> s[5] == ':' && TwoDigits(s, 6, 60))
    && (|s| > 8 ==> s[8] == '.' && 10 <= |s| <= 15 && Digits(s[9..]))
  }

  /** A fraction of fewer than six digits counts from the left. */
  function Parse(s: string): (t: Option<Time>)
    ensures t.Some? <==> Matches(s)
    ensures t.Some? ==> t.value.Valid()
  {
    if !Matches(s) then None
    else
      ValueRange(s[0..2]);
      ValueRange(s[3..5]);
      var second := if |s| > 5 then ValueRange(s[6..8]); Value(s[6..8]) else 0;
      var micro := if |s| > 8 then FractionRange(s[9..]); Value(s[9..]) * Power(6 - (|s| - 9)) else 0;
      Some(Time(Value(s[0..2]), Value(s[3..5]), second, micro))
  }

  // ---------------------------------------------------------------- the text, character by character

  predicate DigitAt(s: string, i: nat) { i < |s| && '0' <= s[i] <= '9' }

  /** The digit at a place, and zero beyond the end. */
  function NumberAt(s: string, i: nat): int {
    if i < |s| then s[i] as int - 48 else 0
  }

  /** Which texts are times: five, eight or ten to fifteen characters; colons after the hour and the minute,
      a point after the second, digits elsewhere; hours to 23, minutes and seconds to 59. */
  lemma MatchesExactly(s: string)
    ensures Matches(s) <==>
      && (|s| == 5 || |s| == 8 || 10 <= |s| <= 15)
      && DigitAt(s, 0) && DigitAt(s, 1) && s[2] == ':' && DigitAt(s, 3) && DigitAt(s, 4)
      && 10 * NumberAt(s, 0) + NumberAt(s, 1) <= 23 && 10 * NumberAt(s, 3) + NumberAt(s, 4) <= 59
      && (|s| > 5 ==>
            && s[5] == ':' && DigitAt(s, 6) && DigitAt(s, 7) && 10 * NumberAt(s, 6) + NumberAt(s, 7) <= 59)
      && (|s| > 8 ==> s[8] == '.' && forall i :: 9 <= i < |s| ==> DigitAt(s, i))
  {
    if |s| >= 5 { TwoByDigits(s, 0); TwoByDigits(s, 3); }
    if |s| >= 8 { TwoByDigits(s, 6); }
    if |s| > 9 { RestByDigits(s); }
  }

  lemma RestByDigits(s: string)
    requires |s| >= 9
    ensures Digits(s[9..]) <==> forall i :: 9 <= i < |s| ==> DigitAt(s, i)
  {
    var rest := s[9..];
    if Digits(rest) {
      forall i | 9 <= i < |s| ensures DigitAt(s, i) { assert IsDigit(rest[i - 9]); }
    }
    if forall i :: 9 <= i < |s| ==> DigitAt(s, i) {
      forall k | 0 <= k < |rest| ensures IsDigit(rest[k]) { assert DigitAt(s, k + 9); }
    }
  }

  lemma TwoByDigits(s: string, i: nat)
    requires i + 2 <= |s|
    ensures Digits(s[i..i + 2]) <==> DigitAt(s, i) && DigitAt(s, i + 1)
    ensures Digits(s[i..i + 2]) ==> Value(s[i..i + 2]) == 10 * NumberAt(s, i) + NumberAt(s, i + 1)
  {
    var two := s[i..i + 2];
    assert two[0] == s[i] && two[1] == s[i + 1];
    if Digits(two) {
      assert two[..1] == [s[i]] && two[..1][..0] == "";
      assert Value(two[..1]) == DigitValue(s[i]);
    }
  }

  /** What a text says: two digits each of hour, minute and second, and the fraction's digits as tenths,
      hundredths and so on of a second. */
  lemma ParseByDigits(s: string)
    requires Matches(s)
    ensures Parse(s).value.hour == 10 * NumberAt(s, 0) + NumberAt(s, 1)
    ensures Parse(s).value.minute == 10 * NumberAt(s, 3) + NumberAt(s, 4)
    ensures Parse(s).value.second == 10 * NumberAt(s, 6) + NumberAt(s, 7)
    ensures Parse(s).value.micro
      == 100_000 * NumberAt(s, 9) + 10_000 * NumberAt(s, 10) + 1_000 * NumberAt(s, 11)
         + 100 * NumberAt(s, 12) + 10 * NumberAt(s, 13) + NumberAt(s, 14)
  {
    TwoByDigits(s, 0);
    TwoByDigits(s, 3);
    if |s| > 5 { TwoByDigits(s, 6); }
    if |s| > 8 {
      FractionByDigits(s, |s|);
      assert s[9..|s|] == s[9..];
    }
  }

  lemma {:induction false} FractionByDigits(s: string, n: nat)
    requires |s| > 8 && Matches(s) && 9 <= n <= |s|
    ensures Value(s[9..n]) * Power(6 - (n - 9))
      == (if n > 9 then 100_000 * NumberAt(s, 9) else 0) + (if n > 10 then 10_000 * NumberAt(s, 10) else 0)
         + (if n > 11 then 1_000 * NumberAt(s, 11) else 0) + (if n > 12 then 100 * NumberAt(s, 12) else 0)
         + (if n > 13 then 10 * NumberAt(s, 13) else 0) + if n > 14 then NumberAt(s, 14) else 0
    decreases n
  {
    Powers();
    if n > 9 {
      FractionByDigits(s, n - 1);
      var f := s[9..n];
      assert f[..|f| - 1] == s[9..n - 1] && f[|f| - 1] == s[n - 1];
      assert Digits(s[9..]) && s[9..][n - 1 - 9] == s[n - 1];
      var k := 6 - (n - 9);
      assert Power(k + 1) == 10 * Power(k);
      Scaled(Value(s[9..n - 1]), DigitValue(s[n - 1]), Power(k));
    }
  }

  lemma Scaled(v: int, d: int, p: int)
    ensures (v * 10 + d) * p == v * (10 * p) + d * p
  {
  }

  lemma FractionRange(f: string)
    requires Digits(f) && 1 <= |f| <= 6
    ensures 0 <= Value(f) * Power(6 - |f|) < 1_000_000
  {
    ValueRange(f);
    Powers();
  }

  lemma TwoPrinted(s: string, i: nat, n: nat, limit: int)
    requires n < limit <= 100 && i + 2 <= |s| && s[i..i + 2] == Pad(n, 2)
    ensures TwoDigits(s, i, limit) && Value(s[i..i + 2]) == n
  {
    Powers();
    ValueOfPad(n, 2);
  }

  lemma MicroPrinted(s: string, n: nat)
    requires n < 1_000_000 && |s| == 15 && s[9..] == Pad(n, 6)
    ensures Digits(s[9..]) && Value(s[9..]) * Power(6 - (|s| - 9)) == n
  {
    Powers();
    ValueOfPad(n, 6);
  }

  /** Where the printed parts of a time stand. */
  lemma FormatSlices(t: Time)
    requires t.Valid()
    ensures var s := Format(t);
      && |s| == (if t.second == 0 && t.micro == 0 then 5 else if t.micro == 0 then 8 else 15)
      && s[0..2] == Pad(t.hour, 2) && s[2] == ':' && s[3..5] == Pad(t.minute, 2)
      && (|s| > 5 ==> s[5] == ':' && s[6..8] == Pad(t.second, 2))
      && (|s| > 8 ==> s[8] == '.' && s[9..] == Pad(t.micro, 6))
  {
  }

  /** Parsing the printed form gives the time back, for every time of day. */
  lemma ParseOfFormat(t: Time)
    requires t.Valid()
    ensures Parse(Format(t)) == Some(t)
  {
    var s := Format(t);
    FormatSlices(t);
    TwoPrinted(s, 0, t.hour, 24);
    TwoPrinted(s, 3, t.minute, 60);
    if |s| > 5 { TwoPrinted(s, 6, t.second, 60); }
    if |s| > 8 { MicroPrinted(s, t.micro); }
  }

  /** The texts the printer itself would write. */
  predicate Canonical(s: string) {
    Matches(s) && (|s| == 5 || (|s| == 8 && s[6..8] != "00") || (|s| == 15 && s[9..] != "000000"))
  }

  lemma MinutesOfParse(s: string)
    requires Matches(s)
    ensures Minutes(Parse(s).value) == s[..5]
  {
    PadOfValue(s[0..2]);
    PadOfValue(s[3..5]);
  }

  lemma SecondOfParse(s: string)
    requires Matches(s) && |s| > 5
    ensures Pad(Parse(s).value.second, 2) == s[6..8] && s[..8] == s[..5] + [':'] + s[6..8]
    ensures Parse(s).value.second == 0 <==> s[6..8] == "00"
  {
    PadOfValue(s[6..8]);
    ZeroDigits(s[6..8]);
  }

  lemma MicroOfParse(s: string)
    requires Matches(s) && |s| == 15
    ensures Pad(Parse(s).value.micro, 6) == s[9..] && s == s[..8] + ['.'] + s[9..]
    ensures Parse(s).value.micro == 0 <==> s[9..] == "000000"
  {
    PadOfValue(s[9..]);
    ZeroDigits(s[9..]);
  }

  /** Printing a parsed text gives the text back exactly for the canonical ones. */
  lemma FormatOfParse(s: string)
    requires Matches(s)
    ensures Format(Parse(s).value) == s <==> Canonical(s)
  {
    var t := Parse(s).value;
    FormatSlices(t);
    MinutesOfParse(s);
    if |s| == 5 {
      assert s[..5] == s;
    } else {
      SecondOfParse(s);
      if |s| == 8 { assert s[..8] == s; }
      if |s| == 15 { MicroOfParse(s); }
    }
  }

  lemma ZeroDigits(s: string)
    requires Digits(s)
    ensures Value(s) == 0 <==> s == Pad(0, |s|)
  {
    PadOfValue(s);
    ValueOfPad(0, |s|);
  }
}
