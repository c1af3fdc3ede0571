/** What the cursor looks like, character by character. */
module CursorFormat {
  import opened Lifecycle
  import opened Cursor

  /** The alphabets in ASCII: that of RFC 4648 section 4, decimal and hexadecimal digits. */
  lemma AlphabetsExact(n: nat)
    requires n < 64
    ensures Sextet(n) as int == if n < 26 then 65 + n else if n < 52 then 97 + (n - 26) else if n < 62 then 48 + (n - 52) else if n == 62 then 43 else 47
    ensures n < 10 ==> Digit(n) as int == 48 + n
    ensures n < 16 ==> HexDigit(n) as int == if n < 10 then 48 + n else 97 + (n - 10)
  {
  }

  /** Three bytes are cut into four sextets, most significant first. */
  lemma BitsExact(b0: Byte, b1: Byte, b2: Byte)
    ensures ((Sextet0(b0) * 64 + Sextet1(b0, b1)) * 64 + Sextet2(b1, b2)) * 64 + Sextet3(b2) == (b0 as int * 256 + b1 as int) * 256 + b2 as int
  {
    assert b0 == 4 * (b0 / 4) + b0 % 4 && b1 == 16 * (b1 / 16) + b1 % 16 && b2 == 64 * (b2 / 64) + b2 % 64;
  }

  /** Missing bytes count as zero and missing sextets are padded. */
  lemma GroupExact(b: seq<Byte>)
    requires b != []
    ensures var b1: Byte, b2: Byte := if |b| > 1 then b[1] else 0, if |b| > 2 then b[2] else 0;
      EncodeBase64(b) ==
        [Sextet(Sextet0(b[0])), Sextet(Sextet1(b[0], b1))]
        + [if |b| > 1 then Sextet(Sextet2(b1, b2)) else '=']
        + [if |b| > 2 then Sextet(Sextet3(b2)) else '=']
        + if |b| > 2 then EncodeBase64(b[3..]) else ""
  {
    hide Sextet, Sextet0, Sextet1, Sextet2, Sextet3, EncodeBase64;
    EncodeShape(b);
  }

  /** A sextet is read back from its own character and from no other. */
  lemma SextetOfExact(c: char, n: nat)
    requires n < 64
    ensures SextetOf(c) == Some(n) <==> c == Sextet(n)
    ensures SextetOf(c).Some? ==> SextetOf(c).value < 64
  {
  }

  /** Whole groups of four characters of the alphabet, the last of which may end in one or two pads. */
  ghost predicate IsPadded(s: string) {
    && |s| % 4 == 0
    && (forall k :: 0 <= k < |s| - 2 ==> SextetOf(s[k]).Some?)
    && (s != "" ==> (
          var last, before := s[|s| - 1], s[|s| - 2];
          || (SextetOf(before).Some? && SextetOf(last).Some?)
          || (SextetOf(before).Some? && last == '=')
          || (before == '=' && last == '=')))
  }

  lemma PadIsNoSextet()
    ensures SextetOf('=').None?
  {
  }

  lemma InnerTail(s: string)
    requires |s| >= 8
    ensures (forall k :: 0 <= k < |s| - 2 ==> SextetOf(s[k]).Some?) <==>
      && SextetOf(s[0]).Some? && SextetOf(s[1]).Some? && SextetOf(s[2]).Some? && SextetOf(s[3]).Some?
      && forall k :: 0 <= k < |s[4..]| - 2 ==> SextetOf(s[4..][k]).Some?
  {
    hide SextetOf;
    assert forall k :: 4 <= k < |s| - 2 ==> s[k] == s[4..][k - 4];
  }

  lemma PaddedTail(s: string)
    requires |s| > 4
    ensures IsPadded(s) <==>
      IsPadded(s[4..]) && SextetOf(s[0]).Some? && SextetOf(s[1]).Some? && SextetOf(s[2]).Some? && SextetOf(s[3]).Some?
  {
    hide SextetOf;
    if |s| % 4 == 0 {
      InnerTail(s);
      assert s[4..][|s| - 5] == s[|s| - 1] && s[4..][|s| - 6] == s[|s| - 2];
    }
  }

  /** Exactly these strings decode. */
  lemma {:induction false} DecodesExactly(s: string)
    ensures DecodeBase64(s).Some? <==> IsPadded(s)
    decreases |s|
  {
    hide SextetOf;
    PadIsNoSextet();
    if |s| > 4 {
      DecodesExactly(s[4..]);
      PaddedTail(s);
    }
  }

  // ---------------------------------------------------------------- timestamps

  lemma TwoDigits(n: nat)
    requires n < 100
    ensures Digits(n, 2) == [Digit(n / 10), Digit(n % 10)]
  {
    OneDigit(n / 10);
  }

  lemma OneDigit(n: nat)
    requires n < 10
    ensures Digits(n, 1) == [Digit(n)]
  {
    assert Digits(n / 10, 0) == "";
  }

  lemma FourDigits(n: nat)
    requires n < 10000
    ensures Digits(n, 4) == Digits(n / 100, 2) + Digits(n % 100, 2)
  {
    hide Digit;
    TwoDigits(n / 100);
    TwoDigits(n % 100);
    LastTwo(n);
  }

  lemma LastTwo(n: nat)
    ensures Digits(n, 4) == Digits(n / 100, 2) + [Digit(n % 100 / 10), Digit(n % 10)]
    ensures n % 100 % 10 == n % 10
  {
    assert Digits(n, 4) == Digits(n / 10, 3) + [Digit(n % 10)];
    assert Digits(n / 10, 3) == Digits(n / 10 / 10, 2) + [Digit(n / 10 % 10)];
    assert n / 10 / 10 == n / 100 && n / 10 % 10 == n % 100 / 10;
  }

  /** A year of four digits, then month, day, hour, minute and second of two each, in the layout of RFC 3339
      section 5.6, the fraction if there is one, and the zone. */
  lemma TimestampExact(t: Time)
    requires ValidTime(t) && 0 <= t.year < 10000
    ensures FormatTime(t) == FormatYear(t.year) + FormatClock(t) + FormatFraction(t.nanos) + "Z"
    ensures FormatYear(t.year) ==
      [Digit(t.year / 100 / 10), Digit(t.year / 100 % 10)] + [Digit(t.year % 100 / 10), Digit(t.year % 100 % 10)]
    ensures FormatClock(t) ==
      (("-" + [Digit(t.month / 10), Digit(t.month % 10)]) + ("-" + [Digit(t.day / 10), Digit(t.day % 10)]))
      + (("T" + [Digit(t.hour / 10), Digit(t.hour % 10)]) + (":" + [Digit(t.minute / 10), Digit(t.minute % 10)])
         + (":" + [Digit(t.second / 10), Digit(t.second % 10)]))
  {
    hide Digits, Digit;
    FourDigits(t.year);
    TwoDigits(t.year / 100);
    TwoDigits(t.year % 100);
    TwoDigits(t.month);
    TwoDigits(t.day);
    TwoDigits(t.hour);
    TwoDigits(t.minute);
    TwoDigits(t.second);
  }

  /** The value of a fraction is that of its digits, and no digit is superfluous. */
  lemma FractionExact(nanos: nat)
    requires nanos < 1000000000
    ensures nanos == 0 ==> FormatFraction(nanos) == ""
    ensures nanos > 0 ==>
      var f := FormatFraction(nanos);
      && 2 <= |f| <= 10 && f[0] == '.' && f[|f| - 1] != '0'
      && Number(f[1..]).Some? && (|f| <= 10 ==> Number(f[1..]).value * Pow10(10 - |f|) == nanos)
  {
    if nanos > 0 {
      var nine := Digits(nanos, 9);
      var ds := TrimZeros(nine);
      Pow10Small();
      DigitsRoundTrip(nanos, 9);
      TrimPads(nine);
      TrimStops(nine);
      NumberOfDigits(ds);
      var zero := Zeros(9);
      assert ds == "" ==> nine == zero;
      NumberOfZeros(9);
      Shifted(ds, 9 - |ds|);
      assert FormatFraction(nanos)[1..] == ds;
    }
  }

  lemma {:induction false} TrimStops(s: string)
    ensures TrimZeros(s) != "" ==> TrimZeros(s)[|TrimZeros(s)| - 1] != '0'
    decreases |s|
  {
    if s != "" && s[|s| - 1] == '0' {
      TrimStops(s[..|s| - 1]);
    }
  }

  lemma {:induction false} Shifted(ds: string, n: nat)
    requires Number(ds).Some?
    ensures Number(ds + Zeros(n)) == Some(Number(ds).value * Pow10(n))
    decreases n
  {
    if n == 0 {
      assert ds + Zeros(0) == ds;
    } else {
      Shifted(ds, n - 1);
      assert (ds + Zeros(n))[..|ds| + n - 1] == ds + Zeros(n - 1);
      TenTimes(Number(ds).value, Pow10(n - 1));
    }
  }

  lemma TenTimes(v: int, p: int)
    ensures v * p * 10 == v * (10 * p)
  {
  }

  lemma EveryFourth(year: int)
    ensures year % 400 == 0 ==> year % 4 == 0
  {
    var q := year / 400;
    assert year % 400 == 0 ==> year == 4 * (100 * q);
  }

  lemma DaysExact(year: int, month: nat)
    requires 1 <= month <= 12 && (year % 400 == 0 ==> year % 4 == 0)
    ensures 28 <= DaysIn(year, month) <= 31
    ensures month == 4 || month == 6 || month == 9 || month == 11 <==> DaysIn(year, month) == 30
    ensures month == 2 <==> DaysIn(year, month) <= 29
    ensures month == 2 ==> (DaysIn(year, month) == 29 <==> year % 400 == 0 || (year % 4 == 0 && year % 100 != 0))
  {
  }

  /** The calendar the parser accepts: a leap day only in leap years. */
  lemma CalendarExact(t: Time)
    ensures ValidTime(t) <==>
      && 1 <= t.month <= 12 && 1 <= t.day <= 31 && t.hour <= 23 && t.minute <= 59 && t.second <= 59 && t.nanos <= 999999999
      && (t.month == 4 || t.month == 6 || t.month == 9 || t.month == 11 ==> t.day <= 30)
      && (t.month == 2 ==> t.day <= if t.year % 400 == 0 || (t.year % 4 == 0 && t.year % 100 != 0) then 29 else 28)
  {
    hide DaysIn;
    if 1 <= t.month <= 12 {
      EveryFourth(t.year);
      DaysExact(t.year, t.month);
    }
  }

  /** Only such instants are read from a timestamp. */
  lemma ReadsValidTimes(s: string)
    ensures ParseTime(s).Some? ==> ValidTime(ParseTime(s).value)
  {
  }

  // ---------------------------------------------------------------- identifiers

  lemma {:induction false} HexAt(b: seq<Byte>, i: nat)
    requires i < |b|
    ensures Hex(b)[2 * i] == HexDigit(b[i] / 16) && Hex(b)[2 * i + 1] == HexDigit(b[i] % 16)
    decreases |b|
  {
    hide HexDigit;
    if i > 0 {
      HexAt(b[1..], i - 1);
    }
  }

  /** Two digits for each byte, in groups of 8, 4, 4, 4 and 12 with hyphens between them. */
  lemma IdExact(id: Id, from: nat, to: nat, at: nat, i: nat)
    requires |id| == 16 && (from, to, at) in {(0, 4, 0), (4, 6, 9), (6, 8, 14), (8, 10, 19), (10, 16, 24)} && from <= i < to
    ensures FormatId(id)[at + 2 * (i - from)] == HexDigit(id[i] / 16) && FormatId(id)[at + 2 * (i - from) + 1] == HexDigit(id[i] % 16)
    ensures at > 0 ==> FormatId(id)[at - 1] == '-'
  {
    hide HexDigit;
    HexAt(id[from..to], i - from);
    IdShape(Hex(id[..4]), Hex(id[4..6]), Hex(id[6..8]), Hex(id[8..10]), Hex(id[10..]));
    assert FormatId(id)[at..at + 2 * (to - from)] == Hex(id[from..to]) by {
      hide Hex;
      assert id[0..4] == id[..4] && id[10..16] == id[10..];
    }
  }

  /** The text that is encoded: the timestamp, a bar, the id. */
  lemma CursorText(t: Time, id: Id)
    requires ValidTime(t) && |id| == 16
    ensures DecodeBase64(EncodeCursor(t, id)).Some?
    ensures Text(DecodeBase64(EncodeCursor(t, id)).value) == FormatTime(t) + "|" + FormatId(id)
  {
    hide EncodeBase64, DecodeBase64, FormatTime, FormatId;
    TimePlain(t);
    IdPlain(id);
    BarSplits(FormatTime(t), FormatId(id));
    Base64RoundTrip(Bytes(FormatTime(t) + "|" + FormatId(id)));
  }
}
