/** The converter itself: it cuts the text it parses into C strings inside a buffer of its own. */
module ClockConverter {
  import opened Clock

  const MAX_STRING_CLOCK := 32
  const MAX_STRING_ZONE := 16
  const NUL := '\0'

  /** The C string at `p`: up to the first NUL. */
  function CString(b: seq<char>, p: nat): string
    decreases |b| - p
  {
    if p >= |b| || b[p] == NUL then [] else [b[p]] + CString(b, p + 1)
  }

  lemma {:induction false} CutAt(b: seq<char>, p: nat, q: nat)
    requires p <= q < |b| && b[q] == NUL && NUL !in b[p..q]
    ensures CString(b, p) == b[p..q]
    decreases q - p
  {
    if p < q {
      assert b[p..q] == [b[p]] + b[p + 1..q];
      CutAt(b, p + 1, q);
    }
  }

  // ----- room for what is printed

  function Power10(k: nat): nat {
    if k == 0 then 1 else 10 * Power10(k - 1)
  }

  lemma {:induction false} DecimalSize(n: nat, w: nat, k: nat)
    requires k >= 1 && n < Power10(k)
    ensures |Decimal(n, w)| <= if w > k then w else k
    decreases n, w
  {
    if n < 10 && w <= 1 {
    } else {
      if k > 1 { DecimalSize(n / 10, if w == 0 then 0 else w - 1, k - 1); }
      else { DecimalSize(n / 10, if w == 0 then 0 else w - 1, 1); }
    }
  }

  /** The longest text there is leaves room for the terminator. */
  lemma UsecTextFits(usec: int)
    ensures |UsecText(usec)| < MAX_STRING_CLOCK
  {
    var t := Narrow(TimeOf(usec));
    SplitOf(usec);
    hide TimeOf, Usec, Rem, Quot, Int16, Decimal;
    assert Power10(5) == 100000 && Power10(2) == 100 && Power10(3) == 1000;
    DecimalSize(Abs(t.hour), 2, 5);
    DecimalSize(Abs(t.min), 2, 2);
    DecimalSize(Abs(t.sec), 2, 2);
    DecimalSize(Abs(t.ms), 3, 3);
    DecimalSize(Abs(t.us), 3, 3);
  }

  // ----- numbers narrowed to 16 bits

  lemma {:induction false} DigitsSize(s: string, acc: nat, k: nat)
    requires acc < Power10(k)
    ensures DigitsPrefix(s, acc) < Power10(k + |s|)
    decreases |s|
  {
    if s != [] && IsDigit(s[0]) {
      DigitsSize(s[1..], 10 * acc + DigitValue(s[0]), k + 1);
    } else {
      Power10Grows(k, k + |s|);
    }
  }

  lemma {:induction false} Power10Grows(k: nat, m: nat)
    requires k <= m
    ensures 1 <= Power10(k) <= Power10(m)
    decreases m
  {
    if k < m { Power10Grows(k, m - 1); } else if k > 0 { Power10Grows(k - 1, m - 1); }
  }

  lemma {:induction false} AtoiSize(s: string)
    ensures 0 - (Power10(|s|) as int) < Atoi(s) < Power10(|s|)
    decreases |s|
  {
    if s == [] {
    } else if IsSpace(s[0]) {
      AtoiSize(s[1..]);
      Power10Grows(|s| - 1, |s|);
    } else {
      DigitsSize(s[1..], 0, 0);
      DigitsSize(s, 0, 0);
      Power10Grows(|s| - 1, |s|);
    }
  }

  /** A field of up to three characters is never too large for 16 bits. */
  function AtoiInt16(b: seq<char>, p: nat): (n: int)
    ensures |CString(b, p)| <= 3 ==> n == Atoi(CString(b, p))
  {
    AtoiSize(CString(b, p));
    Power10Grows(|CString(b, p)|, if |CString(b, p)| <= 3 then 3 else |CString(b, p)|);
    Int16(Atoi(CString(b, p)))
  }

  class ClockConverter {
    const stringClock: array<char>
    const stringZone: array<char>

    ghost predicate Valid() {
      stringClock.Length == MAX_STRING_CLOCK && stringZone.Length == MAX_STRING_ZONE
    }

    constructor ()
      ensures Valid() && fresh(stringClock) && fresh(stringZone)
    {
      stringClock := new char[MAX_STRING_CLOCK](_ => NUL);
      stringZone := new char[MAX_STRING_ZONE](_ => NUL);
    }

    method Strcpy(buf: array<char>, t: string)
      requires |t| < buf.Length
      modifies buf
      ensures buf[..|t|] == t && buf[|t|] == NUL
    {
      var i := 0;
      while i < |t|
        invariant 0 <= i <= |t| && buf[..i] == t[..i]
      {
        buf[i] := t[i];
        i := i + 1;
      }
      buf[i] := NUL;
    }

    method Usec2Ascii(usec: int) returns (s: string)
      requires IsInt64(usec)
      ensures s == UsecText(usec) && |s| < MAX_STRING_CLOCK
    {
      var hour, min, sec, ms, us := Usec2Clock(usec);
      s := Pad(hour, 2) + ":" + Pad(min, 2) + ":" + Pad(sec, 2) + "," + Pad(ms, 3) + "," + Pad(us, 3);
      UsecTextFits(usec);
    }

    /** Longer texts are cut at the positions of shorter ones too: each case runs into the next. */
    method Ascii2Usec(t: string) returns (usec: int)
      requires Valid() && NUL !in t
      modifies stringClock
      ensures usec == TextUsec(t)
      ensures |t| !in {5, 8, 12, 16} ==> usec == 0
    {
      if |t| > 16 || |t| < 5 {
        return 0;
      }
      Strcpy(stringClock, t);
      var sHour, sMin, sSec := MAX_STRING_CLOCK, MAX_STRING_CLOCK, MAX_STRING_CLOCK;
      var sMs, sUs := MAX_STRING_CLOCK, MAX_STRING_CLOCK;
      var n := |t|;
      if n == 16 {
        stringClock[12] := NUL;
        sUs := 13;
      }
      if n == 16 || n == 12 {
        stringClock[8] := NUL;
        sMs := 9;
      }
      if n == 16 || n == 12 || n == 8 {
        stringClock[5] := NUL;
        sSec := 6;
      }
      if n == 16 || n == 12 || n == 8 || n == 5 {
        stringClock[2] := NUL;
        sMin := 3;
        sHour := 0;
        Cuts(stringClock[..], t);
      }
      var b := stringClock[..];
      var hour, min, sec := AtoiInt16(b, sHour), AtoiInt16(b, sMin), AtoiInt16(b, sSec);
      var ms, us := AtoiInt16(b, sMs), AtoiInt16(b, sUs);
      usec := Clock2Usec(hour, min, sec, ms, us);
      assert t[n..] == [] && t[..n] == t;
      assert n == 5 ==> t[3..5] == t[3..];
      assert n == 8 ==> t[6..8] == t[6..];
      assert n == 12 ==> t[9..12] == t[9..];
      assert n == 16 ==> t[13..16] == t[13..];
    }

    method Tz2Ascii(tz: int) returns (s: string)
      requires IsInt16(tz)
      ensures s == TzText(tz) && |s| < MAX_STRING_ZONE
    {
      var sign := if tz < 0 then '-' else '+';
      var hour, min := TzHour(tz), TzMin(tz);
      s := "GMT" + [sign] + Pad(Abs(hour), 2) + ":" + Pad(Abs(min), 2);
      Signs(tz);
      TzFields(sign, Abs(hour), Abs(min));
    }

    method Ascii2Tz(t: string) returns (tz: int)
      requires Valid() && NUL !in t
      modifies stringZone
      ensures tz == TextTz(t)
      ensures |t| !in {6, 9} ==> tz == 0
      ensures |t| in {6, 9} && Digits(t, 4, 2) && (|t| == 9 ==> Digits(t, 7, 2)) ==>
                var clock := Two(t, 4) % 24 * 60 + if |t| == 9 then Two(t, 7) else 0;
                tz == if t[3] == '-' then -clock else clock
    {
      if |t| > 9 || |t| < 6 {
        return 0;
      }
      Strcpy(stringZone, t);
      var sHour, sMin, sign := MAX_STRING_ZONE, MAX_STRING_ZONE, NUL;
      if |t| == 9 {
        stringZone[6] := NUL;
        sMin := 7;
      }
      if |t| == 9 || |t| == 6 {
        sHour := 4;
        sign := stringZone[3];
      }
      var b := stringZone[..];
      if |t| == 9 {
        Kept(b, t, 4, 6);
        Kept(b, t, 7, 9);
      } else if |t| == 6 {
        Kept(b, t, 4, 6);
      }
      var hour, min := AtoiInt16(b, sHour), AtoiInt16(b, sMin);
      assert |t| == 9 ==> t[7..9] == t[7..];
      if sign == '-' {
        hour := -hour;
        min := -min;
      }
      tz := ClockTz(hour, min);
      TzReads(t);
    }
  }

  /** A stretch of the text that was left alone, up to a cut. */
  lemma Kept(b: seq<char>, t: string, p: nat, q: nat)
    requires NUL !in t && p <= q <= |t| && q < |b| && b[q] == NUL
    requires forall i | p <= i < q :: b[i] == t[i]
    ensures CString(b, p) == t[p..q]
  {
    assert b[p..q] == t[p..q];
    CutAt(b, p, q);
  }

  /** The buffer after the cuts: each field is a C string of its own. */
  lemma Cuts(b: seq<char>, t: string)
    requires |b| == MAX_STRING_CLOCK && NUL !in t && |t| in {5, 8, 12, 16} && b[|t|] == NUL
    requires forall i | 0 <= i < |t| && i !in {2, 5, 8, 12} :: b[i] == t[i]
    requires forall i | i in {2, 5, 8, 12} && i <= |t| :: b[i] == NUL
    ensures CString(b, 0) == t[..2] && CString(b, 3) == t[3..5]
    ensures |t| > 5 ==> CString(b, 6) == t[6..8]
    ensures |t| > 8 ==> CString(b, 9) == t[9..12]
    ensures |t| > 12 ==> CString(b, 13) == t[13..16]
  {
    Kept(b, t, 0, 2);
    Kept(b, t, 3, 5);
    if |t| > 5 { Kept(b, t, 6, 8); }
    if |t| > 8 { Kept(b, t, 9, 12); }
    if |t| > 12 { Kept(b, t, 13, 16); }
  }
}
