/** Times of day in microseconds and time zones in minutes, printed and parsed. */
module Clock {
  const HOUR := 3600_000_000
  const MINUTE := 60_000_000
  const SECOND := 1_000_000
  const MILLISECOND := 1_000
  const HUNDRED_HOURS := 100 * HOUR
  const DAY_MINUTES := 1440

  // ----- C arithmetic

  /** Division truncates toward zero, and the remainder has the sign of the dividend. */
  function Quot(a: int, b: int): int
    requires b > 0
  {
    if a >= 0 then a / b else -(-a / b)
  }

  function Rem(a: int, b: int): (r: int)
    requires b > 0
    ensures -b < r < b && (a >= 0 ==> r >= 0) && (a <= 0 ==> r <= 0)
  {
    if a >= 0 then a % b else -(-a % b)
  }

  lemma QuotRem(a: int, b: int)
    requires b > 0
    ensures Quot(a, b) * b + Rem(a, b) == a
  {
  }

  /** Conversion to 16 bits wraps around. */
  function Int16(x: int): (r: int)
    ensures -32768 <= r < 32768 && (-32768 <= x < 32768 ==> r == x)
  {
    (x + 32768) % 65536 - 32768
  }

  predicate IsInt16(x: int) { -32768 <= x < 32768 }
  predicate IsInt64(x: int) { -0x8000_0000_0000_0000 <= x < 0x8000_0000_0000_0000 }

  // ----- clocks

  datatype Time = Time(hour: int, min: int, sec: int, ms: int, us: int) {
    /** All fields of one sign, and each below a unit of the field before it. */
    predicate Split() {
      || (hour >= 0 && 0 <= min < 60 && 0 <= sec < 60 && 0 <= ms < 1000 && 0 <= us < 1000)
      || (hour <= 0 && -60 < min <= 0 && -60 < sec <= 0 && -1000 < ms <= 0 && -1000 < us <= 0)
    }
  }

  function Usec(t: Time): int {
    t.hour * HOUR + t.min * MINUTE + t.sec * SECOND + t.ms * MILLISECOND + t.us
  }

  /** Only the hours can be cut by their 16 bits. */
  function Narrow(t: Time): Time {
    t.(hour := Int16(t.hour))
  }

  method Clock2Usec(hour: int, min: int, sec: int, ms: int, us: int) returns (usec: int)
    ensures usec == Usec(Time(hour, min, sec, ms, us))
  {
    usec := hour * HOUR + min * MINUTE + sec * SECOND + ms * MILLISECOND + us;
  }

  /** The one way to split a count of microseconds. */
  function TimeOf(usec: int): Time {
    var a := Rem(usec, HOUR);
    var b := Rem(a, MINUTE);
    var c := Rem(b, SECOND);
    Time(Quot(usec, HOUR), Quot(a, MINUTE), Quot(b, SECOND), Quot(c, MILLISECOND), Rem(c, MILLISECOND))
  }

  lemma SplitOf(usec: int)
    ensures TimeOf(usec).Split() && Usec(TimeOf(usec)) == usec
    ensures usec >= 0 <==> TimeOf(usec).hour >= 0 && TimeOf(usec).min >= 0 && TimeOf(usec).sec >= 0
                           && TimeOf(usec).ms >= 0 && TimeOf(usec).us >= 0
  {
  }

  /** No other split gives the same count. */
  lemma SplitOnce(t: Time, t': Time)
    requires t.Split() && t'.Split() && Usec(t) == Usec(t')
    ensures t == t'
  {
    if Usec(t) == 0 {
      assert t == Time(0, 0, 0, 0, 0) && t' == t;
    } else {
      var a, a' := t.sec * SECOND + t.ms * MILLISECOND + t.us, t'.sec * SECOND + t'.ms * MILLISECOND + t'.us;
      assert t.hour * 60 + t.min == t'.hour * 60 + t'.min && a == a';
      assert t.hour == t'.hour && t.sec == t'.sec;
    }
  }

  method Usec2Clock(usec: int) returns (hour: int, min: int, sec: int, ms: int, us: int)
    requires IsInt64(usec)
    ensures exists t: Time :: t.Split() && Usec(t) == usec && Time(hour, min, sec, ms, us) == Narrow(t)
    ensures Time(hour, min, sec, ms, us) == Narrow(TimeOf(usec))
  {
    hour := Int16(Quot(usec, HOUR));
    var rest := Rem(usec, HOUR);
    min := Int16(Quot(rest, MINUTE));
    rest := Rem(rest, MINUTE);
    sec := Int16(Quot(rest, SECOND));
    rest := Rem(rest, SECOND);
    ms := Int16(Quot(rest, MILLISECOND));
    rest := Rem(rest, MILLISECOND);
    us := Int16(rest);
    SplitOf(usec);
  }

  // ----- numbers in text

  function Digit(d: nat): char
    requires d < 10
  {
    "0123456789"[d]
  }

  predicate IsDigit(c: char) { '0' <= c <= '9' }

  function DigitValue(c: char): (d: nat)
    requires IsDigit(c)
    ensures d < 10 && Digit(d) == c
  {
    c as int - '0' as int
  }

  /** "%.wd" of a number that is not negative. */
  function Decimal(n: nat, w: nat): (s: string)
    ensures |s| >= 1 && |s| >= w
  {
    if n < 10 && w <= 1 then [Digit(n)]
    else Decimal(n / 10, if w == 0 then 0 else w - 1) + [Digit(n % 10)]
  }

  /** "%.wd" */
  function Pad(n: int, w: nat): (s: string)
    ensures |s| >= w
    ensures n < 0 ==> |s| > w
  {
    if n < 0 then ['-'] + Decimal(-n, w) else Decimal(n, w)
  }

  predicate IsSpace(c: char) { c == ' ' || '\t' <= c <= '\r' }

  function DigitsPrefix(s: string, acc: nat): nat {
    if s != [] && IsDigit(s[0]) then DigitsPrefix(s[1..], 10 * acc + DigitValue(s[0])) else acc
  }

  /** atoi */
  function Atoi(s: string): int {
    if s == [] then 0
    else if IsSpace(s[0]) then Atoi(s[1..])
    else if s[0] == '-' then 0 - DigitsPrefix(s[1..], 0)
    else if s[0] == '+' then DigitsPrefix(s[1..], 0)
    else DigitsPrefix(s, 0)
  }

  /** The number that digits write. */
  function Value(s: string): nat
    requires forall c | c in s :: IsDigit(c)
  {
    if s == [] then 0 else 10 * Value(s[..|s| - 1]) + DigitValue(s[|s| - 1])
  }

  lemma {:induction false} PrefixReads(ds: string, i: nat, rest: string)
    requires forall c | c in ds :: IsDigit(c)
    requires rest == [] || !IsDigit(rest[0])
    requires i <= |ds|
    ensures DigitsPrefix(ds[i..] + rest, Value(ds[..i])) == Value(ds)
    decreases |ds| - i
  {
    if i == |ds| {
      assert ds[i..] + rest == rest && ds[..i] == ds;
    } else {
      assert (ds[i..] + rest)[1..] == ds[i + 1..] + rest && ds[..i + 1][..i] == ds[..i];
      PrefixReads(ds, i + 1, rest);
    }
  }

  /** Spaces are skipped, one sign is heeded, digits are read up to the first character that is none. */
  lemma {:induction false} AtoiReads(spaces: string, sign: string, ds: string, rest: string)
    requires forall c | c in spaces :: IsSpace(c)
    requires sign in {"", "+", "-"}
    requires forall c | c in ds :: IsDigit(c)
    requires rest == [] || !IsDigit(rest[0])
    requires sign == "" && ds == [] && rest != [] ==> !IsSpace(rest[0]) && rest[0] != '+' && rest[0] != '-'
    ensures Atoi(spaces + sign + ds + rest) == if sign == "-" then 0 - Value(ds) else Value(ds)
    decreases |spaces|
  {
    var s := spaces + sign + ds + rest;
    if spaces != [] {
      assert s[1..] == spaces[1..] + sign + ds + rest;
      AtoiReads(spaces[1..], sign, ds, rest);
    } else {
      PrefixReads(ds, 0, rest);
      assert s[|sign|..] == ds[0..] + rest && ds[..0] == [];
    }
  }

  lemma Pad2(n: int)
    ensures |Pad(n, 2)| == 2 <==> 0 <= n < 100
    ensures 0 <= n < 100 ==> Pad(n, 2) == [Digit(n / 10), Digit(n % 10)]
  {
    if n >= 0 {
      var m := n / 10;
      assert Decimal(m, 1) == if m < 10 then [Digit(m)] else Decimal(m / 10, 0) + [Digit(m % 10)];
    }
  }

  lemma ValueMore(s: string, d: nat)
    requires d < 10 && forall c | c in s :: IsDigit(c)
    ensures forall c | c in s + [Digit(d)] :: IsDigit(c)
    ensures Value(s + [Digit(d)]) == 10 * Value(s) + d
  {
    var t := s + [Digit(d)];
    assert t[..|t| - 1] == s && t[|t| - 1] == Digit(d) && DigitValue(Digit(d)) == d;
    forall c | c in t ensures IsDigit(c) {
      var i :| 0 <= i < |t| && t[i] == c;
      if i < |s| { assert s[i] == c; }
    }
  }

  lemma {:induction false} DecimalReads(n: nat, w: nat)
    ensures var s := Decimal(n, w);
            && (forall c | c in s :: IsDigit(c)) && Value(s) == n
            && s != [] && (|s| == w || |s| == 1 || s[0] != '0')
    decreases n, w
  {
    assert Value([]) == 0;
    if n < 10 && w <= 1 {
      ValueMore([], n);
      assert [] + [Digit(n)] == [Digit(n)];
    } else {
      var v := if w == 0 then 0 else w - 1;
      DecimalReads(n / 10, v);
      hide Value, Digit;
      ValueMore(Decimal(n / 10, v), n % 10);
      if Decimal(n / 10, v) == ['0'] { LeadingDigit(n / 10, v); }
    }
  }

  lemma LeadingDigit(n: nat, w: nat)
    requires (forall c | c in Decimal(n, w) :: IsDigit(c)) && Value(Decimal(n, w)) == n
    requires |Decimal(n, w)| == 1 && Decimal(n, w) == ['0']
    ensures n == 0
  {
    assert Value([]) == 0 && Decimal(n, w)[..0] == [];
  }

  /** What "%.wd" prints: the digits of the number, with no zero before them but to fill the width. */
  lemma PadReads(n: int, w: nat)
    ensures n < 0 ==> Pad(n, w) == "-" + Pad(-n, w)
    ensures n >= 0 ==> var s := Pad(n, w);
                       && (forall c | c in s :: IsDigit(c)) && Value(s) == n
                       && s != [] && (|s| == w || |s| == 1 || s[0] != '0')
  {
    if n >= 0 { DecimalReads(n, w); }
  }

  lemma Recompose(n: nat)
    ensures 100 * (n / 10 / 10) + 10 * (n / 10 % 10) + n % 10 == n
    ensures n < 1000 ==> n / 10 / 10 < 10
  {
  }

  lemma Pad3(n: int)
    ensures |Pad(n, 3)| == 3 <==> 0 <= n < 1000
    ensures 0 <= n < 1000 ==> Pad(n, 3) == [Digit(n / 10 / 10), Digit(n / 10 % 10), Digit(n % 10)]
  {
    if n >= 0 {
      Pad2(n / 10);
      assert Decimal(n, 3) == Decimal(n / 10, 2) + [Digit(n % 10)];
    }
  }

  lemma MoreDigits(d: nat, rest: string, acc: nat)
    requires d < 10
    ensures DigitsPrefix([Digit(d)] + rest, acc) == DigitsPrefix(rest, 10 * acc + d)
  {
    var s := [Digit(d)] + rest;
    assert s[1..] == rest && DigitValue(Digit(d)) == d;
  }

  lemma {:induction false} AtoiDigits(d: nat, rest: string)
    requires d < 10
    ensures Atoi([Digit(d)] + rest) == DigitsPrefix(rest, d)
  {
    MoreDigits(d, rest, 0);
  }

  lemma Atoi2(a: nat, b: nat)
    requires a < 10 && b < 10
    ensures Atoi([Digit(a), Digit(b)]) == 10 * a + b
  {
    assert DigitsPrefix([], 10 * a + b) == 10 * a + b;
    hide Atoi, DigitsPrefix, Digit;
    assert [Digit(a), Digit(b)] == [Digit(a)] + ([Digit(b)] + []);
    AtoiDigits(a, [Digit(b)] + []);
    MoreDigits(b, [], a);
  }

  lemma Atoi3(a: nat, b: nat, c: nat)
    requires a < 10 && b < 10 && c < 10
    ensures Atoi([Digit(a), Digit(b), Digit(c)]) == 100 * a + 10 * b + c
  {
    assert DigitsPrefix([], 100 * a + 10 * b + c) == 100 * a + 10 * b + c;
    hide Atoi, DigitsPrefix, Digit;
    assert [Digit(a), Digit(b), Digit(c)] == [Digit(a)] + ([Digit(b)] + ([Digit(c)] + []));
    AtoiDigits(a, [Digit(b)] + ([Digit(c)] + []));
    MoreDigits(b, [Digit(c)] + [], a);
    MoreDigits(c, [], 10 * a + b);
  }

  // ----- the text of a time

  function TimeText(t: Time): string {
    Pad(t.hour, 2) + ":" + Pad(t.min, 2) + ":" + Pad(t.sec, 2) + "," + Pad(t.ms, 3) + "," + Pad(t.us, 3)
  }

  function UsecText(usec: int): string {
    TimeText(Narrow(TimeOf(usec)))
  }

  /** Fields by position, as many as the length tells; a text of any other length is midnight. */
  function TextUsec(t: string): int {
    if |t| == 5 then Usec(Time(Atoi(t[..2]), Atoi(t[3..]), 0, 0, 0))
    else if |t| == 8 then Usec(Time(Atoi(t[..2]), Atoi(t[3..5]), Atoi(t[6..]), 0, 0))
    else if |t| == 12 then Usec(Time(Atoi(t[..2]), Atoi(t[3..5]), Atoi(t[6..8]), Atoi(t[9..]), 0))
    else if |t| == 16 then Usec(Time(Atoi(t[..2]), Atoi(t[3..5]), Atoi(t[6..8]), Atoi(t[9..12]), Atoi(t[13..])))
    else 0
  }

  /** The times whose text has sixteen characters. */
  predicate Fits(t: Time) {
    0 <= t.hour < 100 && 0 <= t.min < 100 && 0 <= t.sec < 100 && 0 <= t.ms < 1000 && 0 <= t.us < 1000
  }

  lemma TextSize(t: Time)
    ensures |TimeText(t)| >= 16 && (|TimeText(t)| == 16 <==> Fits(t))
  {
    Pad2(t.hour); Pad2(t.min); Pad2(t.sec); Pad3(t.ms); Pad3(t.us);
  }

  lemma TextFields(t: Time)
    requires Fits(t)
    ensures var s := TimeText(t);
            && |s| == 16 && s[2] == ':' && s[5] == ':' && s[8] == ',' && s[12] == ','
            && s[..2] == Pad(t.hour, 2) && s[3..5] == Pad(t.min, 2) && s[6..8] == Pad(t.sec, 2)
            && s[9..12] == Pad(t.ms, 3) && s[13..] == Pad(t.us, 3)
  {
    Pad2(t.hour); Pad2(t.min); Pad2(t.sec); Pad3(t.ms); Pad3(t.us);
  }

  lemma AtoiPad2(n: int)
    requires 0 <= n < 100
    ensures Atoi(Pad(n, 2)) == n
  {
    Pad2(n);
    Atoi2(n / 10, n % 10);
  }

  lemma AtoiPad3(n: int)
    requires 0 <= n < 1000
    ensures Atoi(Pad(n, 3)) == n
  {
    Pad3(n);
    Recompose(n);
    Atoi3(n / 10 / 10, n / 10 % 10, n % 10);
  }

  /** Reading the text of a time, whole or up to its milliseconds, seconds or minutes, gives the
      time that far. */
  lemma TextTrip(t: Time)
    requires Fits(t)
    ensures |TimeText(t)| == 16
    ensures TextUsec(TimeText(t)) == Usec(t)
    ensures TextUsec(TimeText(t)[..12]) == Usec(t.(us := 0))
    ensures TextUsec(TimeText(t)[..8]) == Usec(t.(ms := 0, us := 0))
    ensures TextUsec(TimeText(t)[..5]) == Usec(t.(sec := 0, ms := 0, us := 0))
  {
    var s := TimeText(t);
    TextFields(t);
    AtoiPad2(t.hour); AtoiPad2(t.min); AtoiPad2(t.sec); AtoiPad3(t.ms); AtoiPad3(t.us);
    assert s[..12][..2] == s[..2] && s[..12][3..5] == s[3..5] && s[..12][6..8] == s[6..8] && s[..12][9..] == s[9..12];
    assert s[..8][..2] == s[..2] && s[..8][3..5] == s[3..5] && s[..8][6..] == s[6..8];
    assert s[..5][..2] == s[..2] && s[..5][3..] == s[3..5];
  }

  /** Parsing undoes printing exactly for the times from midnight to the last microsecond before
      a hundred hours; the header promises a time of day only. */
  lemma UsecTripExactly(usec: int)
    requires IsInt64(usec)
    ensures TextUsec(UsecText(usec)) == usec <==> 0 <= usec < HUNDRED_HOURS
  {
    var t := TimeOf(usec);
    SplitOf(usec);
    TextSize(Narrow(t));
    if Fits(Narrow(t)) {
      TextTrip(Narrow(t));
    }
  }

  lemma CutMinute(k: nat, r: nat)
    requires r < MINUTE
    ensures (k * MINUTE + r) % MINUTE == r
  {
  }

  lemma CutSecond(k: nat, r: nat)
    requires r < SECOND
    ensures (k * SECOND + r) % SECOND == r
  {
  }

  lemma CutMillisecond(k: nat, r: nat)
    requires r < MILLISECOND
    ensures (k * MILLISECOND + r) % MILLISECOND == r
  {
  }

  lemma UsecCutMinute(t: Time)
    requires t.Split() && t.hour >= 0 && t.min >= 0 && t.sec >= 0 && t.ms >= 0 && t.us >= 0
    ensures Usec(t.(sec := 0, ms := 0, us := 0)) == Usec(t) - Usec(t) % MINUTE
  {
    CutMinute(60 * t.hour + t.min, t.sec * SECOND + t.ms * MILLISECOND + t.us);
  }

  lemma UsecCutSecond(t: Time)
    requires t.Split() && t.hour >= 0 && t.min >= 0 && t.sec >= 0 && t.ms >= 0 && t.us >= 0
    ensures Usec(t.(ms := 0, us := 0)) == Usec(t) - Usec(t) % SECOND
  {
    CutSecond(3600 * t.hour + 60 * t.min + t.sec, t.ms * MILLISECOND + t.us);
  }

  lemma UsecCutMillisecond(t: Time)
    requires t.Split() && t.hour >= 0 && t.min >= 0 && t.sec >= 0 && t.ms >= 0 && t.us >= 0
    ensures Usec(t.(us := 0)) == Usec(t) - Usec(t) % MILLISECOND
  {
    CutMillisecond(3600_000 * t.hour + 60_000 * t.min + 1000 * t.sec + t.ms, t.us);
  }

  /** The first 5, 8 or 12 characters give the time cut to the minute, second or millisecond. */
  lemma UsecPrefixes(usec: int)
    requires 0 <= usec < HUNDRED_HOURS
    ensures |UsecText(usec)| == 16
    ensures TextUsec(UsecText(usec)[..5]) == usec - usec % MINUTE
    ensures TextUsec(UsecText(usec)[..8]) == usec - usec % SECOND
    ensures TextUsec(UsecText(usec)[..12]) == usec - usec % MILLISECOND
  {
    var t := TimeOf(usec);
    SplitOf(usec);
    hide TimeOf;
    TextTrip(t);
    UsecCutMinute(t);
    UsecCutSecond(t);
    UsecCutMillisecond(t);
  }

  /** "hh:mm:ss,mmm,uuu" with minutes and seconds below sixty. */
  predicate WellFormed(s: string) {
    && |s| == 16 && s[2] == ':' && s[5] == ':' && s[8] == ',' && s[12] == ','
    && (forall i | 0 <= i < 16 && i != 2 && i != 5 && i != 8 && i != 12 :: IsDigit(s[i]))
    && s[3] < '6' && s[6] < '6'
  }

  /** Printing undoes parsing exactly for the well-formed texts. */
  lemma TextTripExactly(s: string)
    ensures UsecText(TextUsec(s)) == s <==> WellFormed(s)
  {
    if WellFormed(s) {
      ParsedFields(s);
    } else {
      var t := Narrow(TimeOf(TextUsec(s)));
      SplitOf(TextUsec(s));
      TextSize(t);
      if Fits(t) {
        TextFields(t);
        Pad2(t.hour); Pad2(t.min); Pad2(t.sec); Pad3(t.ms); Pad3(t.us);
        Written(t);
      }
    }
  }

  /** The text of a time, character by character. */
  lemma TextChars(t: Time)
    requires Fits(t)
    ensures TimeText(t) == [Digit(t.hour / 10), Digit(t.hour % 10), ':', Digit(t.min / 10), Digit(t.min % 10), ':',
                            Digit(t.sec / 10), Digit(t.sec % 10), ',',
                            Digit(t.ms / 10 / 10), Digit(t.ms / 10 % 10), Digit(t.ms % 10), ',',
                            Digit(t.us / 10 / 10), Digit(t.us / 10 % 10), Digit(t.us % 10)]
  {
    hide Pad, Digit;
    Pad2(t.hour); Pad2(t.min); Pad2(t.sec); Pad3(t.ms); Pad3(t.us);
  }

  lemma DigitChar(d: nat)
    requires d < 10
    ensures IsDigit(Digit(d)) && DigitValue(Digit(d)) == d && (Digit(d) < '6' <==> d < 6)
  {
  }

  lemma Written(t: Time)
    requires Fits(t) && t.Split()
    ensures WellFormed(TimeText(t))
  {
    hide TimeText, Pad, Digit, IsDigit, DigitValue;
    TextChars(t);
    DigitChar(t.hour / 10); DigitChar(t.hour % 10); DigitChar(t.min / 10); DigitChar(t.min % 10);
    DigitChar(t.sec / 10); DigitChar(t.sec % 10);
    DigitChar(t.ms / 10 / 10); DigitChar(t.ms / 10 % 10); DigitChar(t.ms % 10);
    DigitChar(t.us / 10 / 10); DigitChar(t.us / 10 % 10); DigitChar(t.us % 10);
  }

  /** Two digits of a text, and three. */
  function Two(s: string, i: nat): (n: nat)
    requires i + 1 < |s| && IsDigit(s[i]) && IsDigit(s[i + 1])
    ensures n < 100
  {
    10 * DigitValue(s[i]) + DigitValue(s[i + 1])
  }

  function Three(s: string, i: nat): (n: nat)
    requires i + 2 < |s| && IsDigit(s[i]) && IsDigit(s[i + 1]) && IsDigit(s[i + 2])
    ensures n < 1000
  {
    100 * DigitValue(s[i]) + 10 * DigitValue(s[i + 1]) + DigitValue(s[i + 2])
  }

  lemma TwoOf(s: string, i: nat, n: nat)
    requires n < 100 && i + 1 < |s| && s[i] == Digit(n / 10) && s[i + 1] == Digit(n % 10)
    ensures IsDigit(s[i]) && IsDigit(s[i + 1]) && Two(s, i) == n
  {
    hide Digit, IsDigit, DigitValue;
    DigitChar(n / 10);
    DigitChar(n % 10);
  }

  lemma TwoDigits(a: nat, b: nat)
    requires a < 10 && b < 10
    ensures var n := 10 * a + b; n / 10 == a && n % 10 == b
  {
  }

  lemma ThreeDigits(a: nat, b: nat, c: nat)
    requires a < 10 && b < 10 && c < 10
    ensures var n := 100 * a + 10 * b + c; n / 10 / 10 == a && n / 10 % 10 == b && n % 10 == c
  {
  }

  lemma TwoAre(s: string, i: nat)
    requires i + 1 < |s| && IsDigit(s[i]) && IsDigit(s[i + 1])
    ensures var n := Two(s, i); Digit(n / 10) == s[i] && Digit(n % 10) == s[i + 1] && Atoi(s[i..i + 2]) == n
  {
    hide Atoi, Digit;
    var a, b := DigitValue(s[i]), DigitValue(s[i + 1]);
    Atoi2(a, b);
    TwoDigits(a, b);
    assert s[i..i + 2] == [s[i], s[i + 1]];
  }

  lemma ThreeAre(s: string, i: nat)
    requires i + 2 < |s| && IsDigit(s[i]) && IsDigit(s[i + 1]) && IsDigit(s[i + 2])
    ensures var n := Three(s, i);
            && Digit(n / 10 / 10) == s[i] && Digit(n / 10 % 10) == s[i + 1] && Digit(n % 10) == s[i + 2]
            && Atoi(s[i..i + 3]) == n
  {
    hide Atoi, Digit;
    var a, b, c := DigitValue(s[i]), DigitValue(s[i + 1]), DigitValue(s[i + 2]);
    Atoi3(a, b, c);
    ThreeDigits(a, b, c);
    assert s[i..i + 3] == [s[i], s[i + 1], s[i + 2]];
  }

  /** What the digits of a well-formed text say. */
  function FieldsOf(s: string): Time
    requires WellFormed(s)
  {
    Time(Two(s, 0), Two(s, 3), Two(s, 6), Three(s, 9), Three(s, 13))
  }

  lemma FieldsRead(s: string)
    requires WellFormed(s)
    ensures TextUsec(s) == Usec(FieldsOf(s))
  {
    hide Atoi, Usec, Two, Three, DigitValue;
    TwoAre(s, 0); TwoAre(s, 3); TwoAre(s, 6); ThreeAre(s, 9); ThreeAre(s, 13);
    assert s[..2] == s[0..2] && s[13..] == s[13..16];
  }

  /** Digits at the places of a field. */
  predicate Digits(s: string, i: nat, n: nat) {
    i + n <= |s| && forall j | i <= j < i + n :: IsDigit(s[j])
  }

  /** What a text of digits says, in microseconds, for each of the four lengths; a text of any other
      length is midnight. */
  lemma ClockReads(s: string)
    ensures |s| !in {5, 8, 12, 16} ==> TextUsec(s) == 0
    ensures |s| in {5, 8, 12, 16} && Digits(s, 0, 2) && Digits(s, 3, 2) && (|s| > 5 ==> Digits(s, 6, 2))
            && (|s| > 8 ==> Digits(s, 9, 3)) && (|s| > 12 ==> Digits(s, 13, 3)) ==>
              TextUsec(s) == 3600_000_000 * Two(s, 0) + 60_000_000 * Two(s, 3)
                             + (if |s| > 5 then 1_000_000 * Two(s, 6) else 0)
                             + (if |s| > 8 then 1_000 * Three(s, 9) else 0) + (if |s| > 12 then Three(s, 13) else 0)
  {
    hide Atoi, Two, Three;
    if |s| in {5, 8, 12, 16} && Digits(s, 0, 2) && Digits(s, 3, 2) && (|s| > 5 ==> Digits(s, 6, 2))
       && (|s| > 8 ==> Digits(s, 9, 3)) && (|s| > 12 ==> Digits(s, 13, 3)) {
      TwoAre(s, 0);
      TwoAre(s, 3);
      assert s[..2] == s[0..2] && (|s| == 5 ==> s[3..] == s[3..5]);
      if |s| > 5 { TwoAre(s, 6); assert |s| == 8 ==> s[6..] == s[6..8]; }
      if |s| > 8 { ThreeAre(s, 9); assert |s| == 12 ==> s[9..] == s[9..12]; }
      if |s| > 12 { ThreeAre(s, 13); assert s[13..] == s[13..16]; }
    }
  }

  lemma FieldsFit(s: string)
    requires WellFormed(s)
    ensures Fits(FieldsOf(s)) && FieldsOf(s).Split()
  {
    assert DigitValue(s[3]) < 6 && DigitValue(s[6]) < 6;
  }

  lemma FieldsWritten(s: string)
    requires WellFormed(s) && Fits(FieldsOf(s))
    ensures TimeText(FieldsOf(s)) == s
  {
    hide TimeText, Two, Three, Digit;
    TextChars(FieldsOf(s));
    TwoAre(s, 0); TwoAre(s, 3); TwoAre(s, 6); ThreeAre(s, 9); ThreeAre(s, 13);
  }

  lemma ParsedFields(s: string)
    requires WellFormed(s)
    ensures UsecText(TextUsec(s)) == s
  {
    var t := FieldsOf(s);
    FieldsRead(s);
    FieldsFit(s);
    FieldsWritten(s);
    SplitOf(Usec(t));
    SplitOnce(t, TimeOf(Usec(t)));
  }

  // ----- the text of a time zone

  function TzHour(tz: int): int { Rem(Quot(tz, 60), 24) }
  function TzMin(tz: int): int { Rem(tz, 60) }
  function ClockTz(hour: int, min: int): int { Int16(Rem(hour, 24) * 60 + min) }
  function Abs(x: int): nat { if x < 0 then -x else x }

  function TzText(tz: int): string {
    "GMT" + [if tz < 0 then '-' else '+'] + Pad(Abs(TzHour(tz)), 2) + ":" + Pad(Abs(TzMin(tz)), 2)
  }

  function TextTz(s: string): int {
    if |s| != 6 && |s| != 9 then 0
    else
      var hour, min := Atoi(s[4..6]), if |s| == 9 then Atoi(s[7..]) else 0;
      if s[3] == '-' then ClockTz(-hour, -min) else ClockTz(hour, min)
  }

  /** Hours and minutes of a zone, taken together, lose whole days only. */
  lemma TzSplit(tz: int)
    ensures TzHour(tz) * 60 + TzMin(tz) == Rem(tz, DAY_MINUTES)
  {
    var h := Quot(tz, 60);
    QuotRem(tz, 60);
    QuotRem(h, 24);
    QuotRem(tz, DAY_MINUTES);
    var k, r := Quot(h, 24), TzHour(tz) * 60 + TzMin(tz);
    assert tz == k * DAY_MINUTES + r;
  }

  lemma TzFields(sign: char, h: nat, m: nat)
    requires h < 100 && m < 100
    ensures var s := "GMT" + [sign] + Pad(h, 2) + ":" + Pad(m, 2);
            && |s| == 9 && s[3] == sign && Atoi(s[4..6]) == h && Atoi(s[7..]) == m
  {
    Pad2(h); Pad2(m);
    AtoiPad2(h); AtoiPad2(m);
    var s := "GMT" + [sign] + Pad(h, 2) + ":" + Pad(m, 2);
    assert s[4..6] == Pad(h, 2) && s[7..] == Pad(m, 2);
  }

  lemma Signs(tz: int)
    ensures tz < 0 ==> TzHour(tz) == 0 - Abs(TzHour(tz)) && TzMin(tz) == 0 - Abs(TzMin(tz))
    ensures tz >= 0 ==> TzHour(tz) == Abs(TzHour(tz)) && TzMin(tz) == Abs(TzMin(tz))
    ensures Abs(TzHour(tz)) < 24 && Abs(TzMin(tz)) < 60
    ensures ClockTz(TzHour(tz), TzMin(tz)) == TzHour(tz) * 60 + TzMin(tz)
  {
  }

  /** A zone is printed and parsed back up to whole days, the sign kept even below one hour. */
  lemma TzTrip(tz: int)
    requires IsInt16(tz)
    ensures TextTz(TzText(tz)) == Rem(tz, DAY_MINUTES)
  {
    Signs(tz);
    TzSplit(tz);
    TzFields(if tz < 0 then '-' else '+', Abs(TzHour(tz)), Abs(TzMin(tz)));
  }

  /** What a text of digits says: hours beyond a day are dropped, and the sign holds for hours and
      minutes alike; a text of six characters has no minutes, and any other length is zone 0. */
  lemma TzReads(s: string)
    ensures |s| != 6 && |s| != 9 ==> TextTz(s) == 0
    ensures |s| in {6, 9} && Digits(s, 4, 2) && (|s| == 9 ==> Digits(s, 7, 2)) ==>
              var clock := Two(s, 4) % 24 * 60 + if |s| == 9 then Two(s, 7) else 0;
              TextTz(s) == if s[3] == '-' then -clock else clock
  {
    hide Atoi, Two;
    if |s| in {6, 9} && Digits(s, 4, 2) && (|s| == 9 ==> Digits(s, 7, 2)) {
      TwoAre(s, 4);
      if |s| == 9 {
        TwoAre(s, 7);
        assert s[7..] == s[7..9];
      }
    }
  }

  /** How a zone is written. */
  lemma TzShape(tz: int)
    ensures var s := TzText(tz);
            && |s| == 9 && s[..3] == "GMT" && s[6] == ':' && s[3] == (if tz < 0 then '-' else '+')
            && Digits(s, 4, 2) && Digits(s, 7, 2) && Two(s, 7) < 60
  {
    hide Pad, Two;
    Signs(tz);
    var s := TzText(tz);
    Pad2(Abs(TzHour(tz)));
    Pad2(Abs(TzMin(tz)));
    DigitChar(Abs(TzHour(tz)) / 10); DigitChar(Abs(TzHour(tz)) % 10);
    DigitChar(Abs(TzMin(tz)) / 10); DigitChar(Abs(TzMin(tz)) % 10);
    TwoOf(s, 7, Abs(TzMin(tz)));
  }

  /** The first six characters give the whole hours, with the zone's sign. */
  lemma TzPrefix(tz: int)
    requires IsInt16(tz)
    ensures |TzText(tz)| == 9
    ensures TextTz(TzText(tz)[..6]) == 60 * Rem(Quot(tz, 60), 24)
  {
    Signs(tz);
    var s := TzText(tz);
    TzFields(if tz < 0 then '-' else '+', Abs(TzHour(tz)), Abs(TzMin(tz)));
    assert s[..6][4..6] == s[4..6] && s[..6][3] == s[3];
  }

  lemma RemItself(a: int)
    ensures Rem(a, DAY_MINUTES) == a <==> -DAY_MINUTES < a < DAY_MINUTES
  {
  }

  lemma TzTripExactly(tz: int)
    requires IsInt16(tz)
    ensures TextTz(TzText(tz)) == tz <==> -DAY_MINUTES < tz < DAY_MINUTES
  {
    TzTrip(tz);
    RemItself(tz);
  }
}
