/** The page cursor: base64 (RFC 4648 section 4) of an RFC 3339 (section 5.6) timestamp, a bar and a UUID. */
module Cursor {
  import opened Lifecycle

  type Byte = b: nat | b < 256

  /** An instant in UTC, to the nanosecond. */
  datatype Time = Time(year: int, month: nat, day: nat, hour: nat, minute: nat, second: nat, nanos: nat)

  type Id = seq<Byte>

  // ---------------------------------------------------------------- base64

  function Sextet(n: nat): char
    requires n < 64
  {
    if n < 26 then ('A' as int + n) as char
    else if n < 52 then ('a' as int + n - 26) as char
    else if n < 62 then ('0' as int + n - 52) as char
    else if n == 62 then '+'
    else '/'
  }

  function SextetOf(c: char): Option<nat> {
    if 'A' <= c <= 'Z' then Some(c as int - 'A' as int)
    else if 'a' <= c <= 'z' then Some(c as int - 'a' as int + 26)
    else if '0' <= c <= '9' then Some(c as int - '0' as int + 52)
    else if c == '+' then Some(62)
    else if c == '/' then Some(63)
    else None
  }

  lemma SextetRoundTrip(n: nat)
    requires n < 64
    ensures SextetOf(Sextet(n)) == Some(n) && Sextet(n) != '='
  {
  }

  /** The four sextets of three bytes. */
  function Sextet0(b0: Byte): (n: nat)
    ensures n < 64
  {
    b0 / 4
  }

  function Sextet1(b0: Byte, b1: Byte): (n: nat)
    ensures n < 64
  {
    b0 % 4 * 16 + b1 / 16
  }

  function Sextet2(b1: Byte, b2: Byte): (n: nat)
    ensures n < 64
  {
    b1 % 16 * 4 + b2 / 64
  }

  function Sextet3(b2: Byte): (n: nat)
    ensures n < 64
  {
    b2 % 64
  }

  function EncodeBase64(b: seq<Byte>): string {
    if |b| == 0 then ""
    else if |b| == 1 then [Sextet(Sextet0(b[0])), Sextet(Sextet1(b[0], 0)), '=', '=']
    else if |b| == 2 then [Sextet(Sextet0(b[0])), Sextet(Sextet1(b[0], b[1])), Sextet(Sextet2(b[1], 0)), '=']
    else
      [Sextet(Sextet0(b[0])), Sextet(Sextet1(b[0], b[1])), Sextet(Sextet2(b[1], b[2])), Sextet(Sextet3(b[2]))]
      + EncodeBase64(b[3..])
  }

  function First(v0: nat, v1: nat): Byte
    requires v0 < 64 && v1 < 64
  {
    v0 * 4 + v1 / 16
  }

  function Second(v1: nat, v2: nat): Byte
    requires v1 < 64 && v2 < 64
  {
    v1 % 16 * 16 + v2 / 4
  }

  function Third(v2: nat, v3: nat): Byte
    requires v2 < 64 && v3 < 64
  {
    v2 % 4 * 64 + v3
  }

  function DecodeBase64(s: string): Option<seq<Byte>> {
    if s == "" then Some([])
    else if |s| < 4 then None
    else
      var v0, v1, v2, v3 := SextetOf(s[0]), SextetOf(s[1]), SextetOf(s[2]), SextetOf(s[3]);
      if v0.None? || v1.None? then None
      else if s[2] == '=' then (if s[3] == '=' && |s| == 4 then Some([First(v0.value, v1.value)]) else None)
      else if v2.None? then None
      else if s[3] == '=' then (if |s| == 4 then Some([First(v0.value, v1.value), Second(v1.value, v2.value)]) else None)
      else if v3.None? then None
      else
        match DecodeBase64(s[4..])
        case None => None
        case Some(rest) => Some([First(v0.value, v1.value), Second(v1.value, v2.value), Third(v2.value, v3.value)] + rest)
  }

  lemma Group(b0: Byte, b1: Byte, b2: Byte)
    ensures First(Sextet0(b0), Sextet1(b0, b1)) == b0
    ensures Second(Sextet1(b0, b1), Sextet2(b1, b2)) == b1
    ensures Third(Sextet2(b1, b2), Sextet3(b2)) == b2
  {
  }

  lemma DecodePadded(n0: nat, n1: nat, n2: nat)
    requires n0 < 64 && n1 < 64 && n2 < 64
    ensures DecodeBase64([Sextet(n0), Sextet(n1), '=', '=']) == Some([First(n0, n1)])
    ensures DecodeBase64([Sextet(n0), Sextet(n1), Sextet(n2), '=']) == Some([First(n0, n1), Second(n1, n2)])
  {
    SextetRoundTrip(n0);
    SextetRoundTrip(n1);
    SextetRoundTrip(n2);
  }

  lemma DecodeGroup(s: string, n0: nat, n1: nat, n2: nat, n3: nat, rest: string)
    requires n0 < 64 && n1 < 64 && n2 < 64 && n3 < 64
    requires s == [Sextet(n0), Sextet(n1), Sextet(n2), Sextet(n3)] + rest
    ensures DecodeBase64(rest).Some? ==>
      DecodeBase64(s) == Some([First(n0, n1), Second(n1, n2), Third(n2, n3)] + DecodeBase64(rest).value)
  {
    SextetRoundTrip(n0);
    SextetRoundTrip(n1);
    SextetRoundTrip(n2);
    SextetRoundTrip(n3);
    assert s[4..] == rest;
  }

  lemma DecodeTriple(b0: Byte, b1: Byte, b2: Byte, s: string, rest: string)
    requires s == [Sextet(Sextet0(b0)), Sextet(Sextet1(b0, b1)), Sextet(Sextet2(b1, b2)), Sextet(Sextet3(b2))] + rest
    ensures DecodeBase64(rest).Some? ==> DecodeBase64(s) == Some([b0, b1, b2] + DecodeBase64(rest).value)
  {
    Group(b0, b1, b2);
    DecodeGroup(s, Sextet0(b0), Sextet1(b0, b1), Sextet2(b1, b2), Sextet3(b2), rest);
  }

  lemma DecodeShort(b0: Byte, b1: Byte)
    ensures DecodeBase64([Sextet(Sextet0(b0)), Sextet(Sextet1(b0, 0)), '=', '=']) == Some([b0])
    ensures DecodeBase64([Sextet(Sextet0(b0)), Sextet(Sextet1(b0, b1)), Sextet(Sextet2(b1, 0)), '=']) == Some([b0, b1])
  {
    DecodePadded(Sextet0(b0), Sextet1(b0, 0), 0);
    DecodePadded(Sextet0(b0), Sextet1(b0, b1), Sextet2(b1, 0));
    Group(b0, 0, 0);
    Group(b0, b1, 0);
  }

  /** How an encoding begins. */
  lemma EncodeShape(b: seq<Byte>)
    ensures |b| == 1 ==> EncodeBase64(b) == [Sextet(Sextet0(b[0])), Sextet(Sextet1(b[0], 0)), '=', '=']
    ensures |b| == 2 ==> EncodeBase64(b) == [Sextet(Sextet0(b[0])), Sextet(Sextet1(b[0], b[1])), Sextet(Sextet2(b[1], 0)), '=']
    ensures |b| >= 3 ==> (
      var head := [Sextet(Sextet0(b[0])), Sextet(Sextet1(b[0], b[1])), Sextet(Sextet2(b[1], b[2])), Sextet(Sextet3(b[2]))];
      EncodeBase64(b) == head + EncodeBase64(b[3..]))
  {
  }

  lemma Regroup(b: seq<Byte>)
    ensures |b| == 1 ==> b == [b[0]]
    ensures |b| == 2 ==> b == [b[0], b[1]]
    ensures |b| >= 3 ==> b == [b[0], b[1], b[2]] + b[3..]
  {
  }

  /** Base64 is lossless on every byte string. */
  lemma {:induction false} Base64RoundTrip(b: seq<Byte>)
    ensures DecodeBase64(EncodeBase64(b)) == Some(b)
    decreases |b|
  {
    EncodeShape(b);
    Regroup(b);
    if |b| == 1 {
      DecodeShort(b[0], 0);
    } else if |b| == 2 {
      DecodeShort(b[0], b[1]);
    } else if |b| > 2 {
      Base64RoundTrip(b[3..]);
      DecodeTriple(b[0], b[1], b[2], EncodeBase64(b), EncodeBase64(b[3..]));
    }
  }

  // ---------------------------------------------------------------- digits

  function Digit(n: nat): char
    requires n < 10
  {
    ('0' as int + n) as char
  }

  predicate IsDigit(c: char) {
    '0' <= c <= '9'
  }

  function Digits(n: nat, width: nat): (r: string)
    ensures |r| == width && forall k :: 0 <= k < |r| ==> IsDigit(r[k])
    decreases width
  {
    if width == 0 then "" else Digits(n / 10, width - 1) + [Digit(n % 10)]
  }

  /** The number a string of digits stands for, None when it is not one. */
  function Number(s: string): Option<nat>
    decreases |s|
  {
    if s == "" then Some(0)
    else if !IsDigit(s[|s| - 1]) || Number(s[..|s| - 1]).None? then None
    else Some(Number(s[..|s| - 1]).value * 10 + (s[|s| - 1] as int - '0' as int))
  }

  function Pow10(w: nat): nat {
    if w == 0 then 1 else 10 * Pow10(w - 1)
  }

  lemma {:induction false} DigitsRoundTrip(n: nat, width: nat)
    requires n < Pow10(width)
    ensures Number(Digits(n, width)) == Some(n)
    decreases width
  {
    if width > 0 {
      DigitsRoundTrip(n / 10, width - 1);
      assert Digits(n, width)[..width - 1] == Digits(n / 10, width - 1);
    }
  }

  /** A number without leading zeros. */
  function Decimal(n: nat): (r: string)
    ensures forall k :: 0 <= k < |r| ==> IsDigit(r[k])
    ensures (n >= 10 ==> |r| >= 2) && (n >= 100 ==> |r| >= 3) && (n >= 1000 ==> |r| >= 4) && (n >= 10000 ==> |r| >= 5)
  {
    if n < 10 then [Digit(n)] else Decimal(n / 10) + [Digit(n % 10)]
  }

  // ---------------------------------------------------------------- timestamps

  function DaysIn(year: int, month: nat): nat {
    if month == 2 then (if year % 4 == 0 && (year % 100 != 0 || year % 400 == 0) then 29 else 28)
    else if month in {4, 6, 9, 11} then 30
    else 31
  }

  predicate ValidTime(t: Time) {
    && 1 <= t.month <= 12 && 1 <= t.day <= DaysIn(t.year, t.month)
    && t.hour < 24 && t.minute < 60 && t.second < 60 && t.nanos < 1000000000
  }

  function FormatYear(y: int): string {
    if y < 0 then "-" + (if -y < 10000 then Digits(-y, 4) else Decimal(-y))
    else if y < 10000 then Digits(y, 4)
    else Decimal(y)
  }

  function TrimZeros(s: string): (r: string)
    ensures r <= s
    decreases |s|
  {
    if s != "" && s[|s| - 1] == '0' then TrimZeros(s[..|s| - 1]) else s
  }

  /** The fraction, without trailing zeros, absent when zero. */
  function FormatFraction(nanos: nat): string {
    if nanos == 0 then "" else "." + TrimZeros(Digits(nanos, 9))
  }

  function FormatClock(t: Time): string {
    "-" + Digits(t.month, 2) + "-" + Digits(t.day, 2) + "T" + Digits(t.hour, 2) + ":" + Digits(t.minute, 2) + ":" + Digits(t.second, 2)
  }

  function FormatTime(t: Time): string {
    FormatYear(t.year) + FormatClock(t) + FormatFraction(t.nanos) + "Z"
  }

  function Zeros(n: nat): (r: string)
    ensures |r| == n
  {
    seq(n, i => '0')
  }

  /** A fraction's digits as nanoseconds: at most nine count. */
  function ParseFraction(ds: string): Option<nat> {
    if |ds| >= 9 then Number(ds[..9]) else Number(ds + Zeros(9 - |ds|))
  }

  /** Optional fraction, then the zone. */
  function ParseTail(s: string): Option<nat> {
    if s == "Z" then Some(0)
    else if |s| >= 3 && s[0] == '.' && s[|s| - 1] == 'Z' && Number(s[1..|s| - 1]).Some? then ParseFraction(s[1..|s| - 1])
    else None
  }

  function ParseTime(s: string): Option<Time> {
    if |s| < 20 || !(s[4] == '-' && s[7] == '-' && s[10] == 'T' && s[13] == ':' && s[16] == ':') then None
    else
      var y, mo, d := Number(s[..4]), Number(s[5..7]), Number(s[8..10]);
      var h, mi, sec := Number(s[11..13]), Number(s[14..16]), Number(s[17..19]);
      var ns := ParseTail(s[19..]);
      if y.None? || mo.None? || d.None? || h.None? || mi.None? || sec.None? || ns.None? then None
      else
        var t := Time(y.value, mo.value, d.value, h.value, mi.value, sec.value, ns.value);
        if ValidTime(t) then Some(t) else None
  }

  lemma {:induction false} TrimPads(s: string)
    ensures s == TrimZeros(s) + Zeros(|s| - |TrimZeros(s)|)
    decreases |s|
  {
    if s != "" && s[|s| - 1] == '0' {
      TrimPads(s[..|s| - 1]);
      var k := |s| - 1 - |TrimZeros(s)|;
      assert Zeros(k + 1) == Zeros(k) + "0";
      assert s == s[..|s| - 1] + "0";
    }
  }

  lemma {:induction false} NumberOfDigits(s: string)
    ensures Number(s).Some? <==> forall k :: 0 <= k < |s| ==> IsDigit(s[k])
    decreases |s|
  {
    if s != "" {
      NumberOfDigits(s[..|s| - 1]);
      assert s == s[..|s| - 1] + [s[|s| - 1]];
    }
  }

  lemma {:induction false} NumberOfZeros(n: nat)
    ensures Number(Zeros(n)) == Some(0)
  {
    if n > 0 {
      NumberOfZeros(n - 1);
      assert Zeros(n)[..n - 1] == Zeros(n - 1);
    }
  }

  lemma Pow10Small()
    ensures Pow10(2) == 100 && Pow10(4) == 10000 && Pow10(9) == 1000000000
  {
    assert Pow10(1) == 10 && Pow10(2) == 100 && Pow10(3) == 1000 && Pow10(4) == 10000;
    assert Pow10(5) == 100000 && Pow10(6) == 1000000 && Pow10(7) == 10000000 && Pow10(8) == 100000000;
  }

  lemma FractionRoundTrip(nanos: nat)
    requires nanos < 1000000000
    ensures ParseTail(FormatFraction(nanos) + "Z") == Some(nanos)
  {
    if nanos == 0 {
      assert FormatFraction(nanos) + "Z" == "Z";
    } else {
      var nine := Digits(nanos, 9);
      var ds := TrimZeros(nine);
      Pow10Small();
      DigitsRoundTrip(nanos, 9);
      TrimPads(nine);
      NumberOfDigits(ds);
      assert ds == "" ==> nine == Zeros(9);
      NumberOfZeros(9);
      var s := "." + ds + "Z";
      assert s[1..|s| - 1] == ds;
      assert |ds| == 9 ==> ds[..9] == nine;
    }
  }

  /** Where each field of the clock stands. */
  lemma ClockShape(t: Time)
    ensures var c := FormatClock(t);
      && |c| == 15 && c[0] == '-' && c[3] == '-' && c[6] == 'T' && c[9] == ':' && c[12] == ':'
      && c[1..3] == Digits(t.month, 2) && c[4..6] == Digits(t.day, 2) && c[7..9] == Digits(t.hour, 2)
      && c[10..12] == Digits(t.minute, 2) && c[13..15] == Digits(t.second, 2)
  {
  }

  lemma ClockParses(t: Time)
    requires ValidTime(t)
    ensures var c := FormatClock(t);
      && |c| == 15
      && Number(c[1..3]) == Some(t.month) && Number(c[4..6]) == Some(t.day) && Number(c[7..9]) == Some(t.hour)
      && Number(c[10..12]) == Some(t.minute) && Number(c[13..15]) == Some(t.second)
  {
    ClockShape(t);
    Pow10Small();
    DigitsRoundTrip(t.month, 2);
    DigitsRoundTrip(t.day, 2);
    DigitsRoundTrip(t.hour, 2);
    DigitsRoundTrip(t.minute, 2);
    DigitsRoundTrip(t.second, 2);
  }

  /** A four-character year leaves every field where the parser looks for it. */
  lemma FieldsInPlace(year: string, clock: string, tail: string)
    requires |year| == 4 && |clock| == 15
    ensures var s := year + clock + tail;
      && s[..4] == year && s[4] == clock[0] && s[7] == clock[3] && s[10] == clock[6] && s[13] == clock[9] && s[16] == clock[12]
      && s[5..7] == clock[1..3] && s[8..10] == clock[4..6] && s[11..13] == clock[7..9] && s[14..16] == clock[10..12]
      && s[17..19] == clock[13..15] && s[19..] == tail
  {
  }

  lemma ParseAssembled(year: string, clock: string, tail: string, t: Time)
    requires |year| == 4 && |clock| == 15 && ValidTime(t) && t.year >= 0 && tail != ""
    requires clock[0] == '-' && clock[3] == '-' && clock[6] == 'T' && clock[9] == ':' && clock[12] == ':'
    requires Number(clock[1..3]) == Some(t.month) && Number(clock[4..6]) == Some(t.day) && Number(clock[7..9]) == Some(t.hour)
    requires Number(clock[10..12]) == Some(t.minute) && Number(clock[13..15]) == Some(t.second)
    requires Number(year) == Some(t.year) && ParseTail(tail) == Some(t.nanos)
    ensures ParseTime(year + clock + tail) == Some(t)
  {
    FieldsInPlace(year, clock, tail);
  }

  lemma TimeRoundTrip(t: Time)
    requires ValidTime(t) && 0 <= t.year < 10000
    ensures ParseTime(FormatTime(t)) == Some(t)
  {
    var year, clock, tail := FormatYear(t.year), FormatClock(t), FormatFraction(t.nanos) + "Z";
    ClockShape(t);
    ClockParses(t);
    Pow10Small();
    DigitsRoundTrip(t.year, 4);
    FractionRoundTrip(t.nanos);
    ParseAssembled(year, clock, tail, t);
    assert FormatTime(t) == year + clock + tail;
  }

  /** Years outside four digits are written but cannot be read back. */
  lemma OtherYearsDoNotParse(t: Time)
    requires t.year < 0 || t.year >= 10000
    ensures ParseTime(FormatTime(t)).None?
  {
    var s, year := FormatTime(t), FormatYear(t.year);
    assert |year| >= 5 && forall k :: 0 <= k < |year| ==> s[k] == year[k];
    if t.year < 0 && |s| >= 20 {
      NumberOfDigits(s[..4]);
      assert s[..4][0] == '-';
    }
  }

  // ---------------------------------------------------------------- identifiers

  function HexDigit(n: nat): char
    requires n < 16
  {
    if n < 10 then Digit(n) else ('a' as int + n - 10) as char
  }

  function HexValue(c: char): Option<nat> {
    if IsDigit(c) then Some(c as int - '0' as int)
    else if 'a' <= c <= 'f' then Some(c as int - 'a' as int + 10)
    else if 'A' <= c <= 'F' then Some(c as int - 'A' as int + 10)
    else None
  }

  function Hex(b: seq<Byte>): (r: string)
    ensures |r| == 2 * |b|
  {
    if b == [] then "" else [HexDigit(b[0] / 16), HexDigit(b[0] % 16)] + Hex(b[1..])
  }

  function Unhex(s: string): (r: Option<seq<Byte>>)
    ensures r.Some? ==> |s| == 2 * |r.value|
  {
    if s == "" then Some([])
    else if |s| == 1 || HexValue(s[0]).None? || HexValue(s[1]).None? then None
    else
      match Unhex(s[2..])
      case None => None
      case Some(rest) => Some([HexValue(s[0]).value * 16 + HexValue(s[1]).value] + rest)
  }

  lemma {:induction false} HexRoundTrip(b: seq<Byte>)
    ensures Unhex(Hex(b)) == Some(b)
  {
    if b != [] {
      HexRoundTrip(b[1..]);
      assert Hex(b)[2..] == Hex(b[1..]);
      assert HexValue(HexDigit(b[0] / 16)) == Some(b[0] / 16) && HexValue(HexDigit(b[0] % 16)) == Some(b[0] % 16);
      assert b == [b[0]] + b[1..];
    }
  }

  function FormatId(id: Id): (r: string)
    requires |id| == 16
    ensures |r| == 36
  {
    Hex(id[..4]) + "-" + Hex(id[4..6]) + "-" + Hex(id[6..8]) + "-" + Hex(id[8..10]) + "-" + Hex(id[10..])
  }

  function ParseId(s: string): Option<Id> {
    if |s| != 36 || !(s[8] == '-' && s[13] == '-' && s[18] == '-' && s[23] == '-') then None
    else
      var a, b, c, d, e := Unhex(s[..8]), Unhex(s[9..13]), Unhex(s[14..18]), Unhex(s[19..23]), Unhex(s[24..]);
      if a.None? || b.None? || c.None? || d.None? || e.None? then None
      else Some(a.value + b.value + c.value + d.value + e.value)
  }

  lemma IdShape(a: string, b: string, c: string, d: string, e: string)
    requires |a| == 8 && |b| == 4 && |c| == 4 && |d| == 4 && |e| == 12
    ensures var s := a + "-" + b + "-" + c + "-" + d + "-" + e;
      && |s| == 36 && s[8] == '-' && s[13] == '-' && s[18] == '-' && s[23] == '-'
      && s[..8] == a && s[9..13] == b && s[14..18] == c && s[19..23] == d && s[24..] == e
  {
  }

  lemma IdRoundTrip(id: Id)
    requires |id| == 16
    ensures ParseId(FormatId(id)) == Some(id)
  {
    HexRoundTrip(id[..4]);
    HexRoundTrip(id[4..6]);
    HexRoundTrip(id[6..8]);
    HexRoundTrip(id[8..10]);
    HexRoundTrip(id[10..]);
    IdShape(Hex(id[..4]), Hex(id[4..6]), Hex(id[6..8]), Hex(id[8..10]), Hex(id[10..]));
    assert id == id[..4] + id[4..6] + id[6..8] + id[8..10] + id[10..];
  }

  // ---------------------------------------------------------------- the cursor

  predicate Plain(s: string) {
    forall k :: 0 <= k < |s| ==> s[k] < 128 as char && s[k] != '|'
  }

  function Bytes(s: string): seq<Byte> {
    seq(|s|, i requires 0 <= i < |s| => s[i] as int % 256)
  }

  function Text(b: seq<Byte>): string {
    seq(|b|, i requires 0 <= i < |b| => b[i] as char)
  }

  function FirstBar(s: string, i: nat): (r: Option<nat>)
    requires i <= |s|
    ensures r.Some? ==> i <= r.value < |s| && s[r.value] == '|'
    ensures forall k :: i <= k < |s| && (r.Some? ==> k < r.value) ==> s[k] != '|'
    decreases |s| - i
  {
    if i == |s| then None else if s[i] == '|' then Some(i) else FirstBar(s, i + 1)
  }

  function EncodeCursor(t: Time, id: Id): string
    requires |id| == 16
  {
    EncodeBase64(Bytes(FormatTime(t) + "|" + FormatId(id)))
  }

  function DecodeCursor(s: string): Option<(Time, Id)> {
    match DecodeBase64(s)
    case None => None
    case Some(b) =>
      var raw := Text(b);
      match FirstBar(raw, 0)
      case None => None
      case Some(k) =>
        var t, id := ParseTime(raw[..k]), ParseId(raw[k + 1..]);
        if t.None? || id.None? then None else Some((t.value, id.value))
  }

  lemma {:induction false} HexPlain(b: seq<Byte>)
    ensures Plain(Hex(b))
  {
    if b != [] {
      HexPlain(b[1..]);
    }
  }

  lemma IdPlain(id: Id)
    requires |id| == 16
    ensures Plain(FormatId(id))
  {
    HexPlain(id[..4]);
    HexPlain(id[4..6]);
    HexPlain(id[6..8]);
    HexPlain(id[8..10]);
    HexPlain(id[10..]);
  }

  lemma PlainAppend(a: string, b: string)
    requires Plain(a) && Plain(b)
    ensures Plain(a + b)
  {
  }

  lemma ClockPlain(t: Time)
    ensures Plain(FormatClock(t))
  {
    ClockShape(t);
    var c := FormatClock(t);
    assert c == [c[0]] + c[1..3] + [c[3]] + c[4..6] + [c[6]] + c[7..9] + [c[9]] + c[10..12] + [c[12]] + c[13..15];
  }

  lemma TimePlain(t: Time)
    ensures Plain(FormatTime(t))
  {
    ClockPlain(t);
    assert Plain(FormatYear(t.year)) && Plain(FormatFraction(t.nanos));
    PlainAppend(FormatYear(t.year), FormatClock(t));
    PlainAppend(FormatYear(t.year) + FormatClock(t), FormatFraction(t.nanos));
    PlainAppend(FormatYear(t.year) + FormatClock(t) + FormatFraction(t.nanos), "Z");
  }

  lemma BarSplits(a: string, b: string)
    requires Plain(a) && Plain(b)
    ensures var s := a + "|" + b;
      && Text(Bytes(s)) == s && FirstBar(s, 0) == Some(|a|) && s[..|a|] == a && s[|a| + 1..] == b
  {
    var s := a + "|" + b;
    var k := FirstBar(s, 0);
    assert s[|a|] == '|';
    assert forall i :: 0 <= i < |a| ==> s[i] == a[i];
  }

  /** The cursor is lossless exactly for the years RFC 3339 can write: in any other the cursor the server
      hands out is one it rejects. */
  lemma CursorRoundTrip(t: Time, id: Id)
    requires ValidTime(t) && |id| == 16
    ensures DecodeCursor(EncodeCursor(t, id)) == if 0 <= t.year < 10000 then Some((t, id)) else None
  {
    hide EncodeBase64, DecodeBase64, FormatTime, ParseTime, FormatId, ParseId, FirstBar;
    TimePlain(t);
    IdPlain(id);
    BarSplits(FormatTime(t), FormatId(id));
    Base64RoundTrip(Bytes(FormatTime(t) + "|" + FormatId(id)));
    IdRoundTrip(id);
    if 0 <= t.year < 10000 {
      TimeRoundTrip(t);
    } else {
      OtherYearsDoNotParse(t);
    }
  }
}
