/** WriteInt and ReadInt: integers as eleven decimal characters and a space in a stream of characters. */
module IntStream {
  import opened Arithmetic
  import opened BaseTypes

  datatype Hr = Ok | ReadFailed | InvalidFormat

  /** One read: the value, whether it is one, and the characters it took. */
  datatype Reading = Reading(hr: Hr, value: int, used: nat)

  // -------------------------------------------------------------------------------------- writing

  function Digit(d: nat): char
    requires d < 10
  {
    '0' + d as char
  }

  /** The last width decimal digits of n. */
  function Decimal(n: nat, width: nat): (s: string)
    ensures |s| == width
  {
    if width == 0 then "" else Decimal(n / 10, width - 1) + [Digit(n % 10)]
  }

  /** "%011d ": zero-padded to eleven characters, the sign among them. */
  function Text(n: int): (s: string)
    requires Int32(n)
    ensures |s| == 12
  {
    (if n < 0 then "-" + Decimal(0 - n, 10) else Decimal(n, 11)) + " "
  }

  // -------------------------------------------------------------------------------------- reading

  predicate IsDigit(c: char) { '0' <= c <= '9' }

  predicate IsSpace(c: char) { c == ' ' || c == '\t' || c == '\r' || c == '\n' || c == '\0' }

  function DigitValue(c: char): nat
    requires IsDigit(c)
  {
    c as int - '0' as int
  }

  /** The digits of s as they are accumulated in an unsigned 32-bit number. */
  function Scan(s: string, n: nat): (r: Reading)
    requires n < W32
    ensures 0 <= r.value < W32 && r.used <= |s|
    decreases |s|
  {
    if s == "" then Reading(ReadFailed, 0, 0)
    else if IsDigit(s[0]) then
      var r := Scan(s[1..], (10 * n + DigitValue(s[0])) % W32);
      r.(used := r.used + 1)
    else if IsSpace(s[0]) then Reading(Ok, n, 1)
    else Reading(InvalidFormat, 0, 1)
  }

  /** (int)n * Sign, and the negative number that has no positive version. */
  function Signed(n: nat, negative: bool): int {
    var i := if n >= 0x8000_0000 then n - W32 else n;
    if !negative || n == 0x8000_0000 then i else 0 - i
  }

  function ReadOne(s: string): (r: Reading)
    ensures r.used <= |s|
  {
    if s != "" && s[0] == '-' then
      var r := Scan(s[1..], 0);
      Reading(r.hr, if r.hr.Ok? then Signed(r.value, true) else 0, r.used + 1)
    else
      var r := Scan(s, 0);
      Reading(r.hr, if r.hr.Ok? then Signed(r.value, false) else 0, r.used)
  }

  // ---------------------------------------------------------------------------------- round trips

  function Power10(k: nat): (p: nat)
    ensures p > 0
  {
    if k == 0 then 1 else 10 * Power10(k - 1)
  }

  /** Counted from the right, character k of a number is its digit for 10^k. */
  lemma {:induction false} DecimalDigits(n: nat, width: nat, k: nat)
    requires k < width
    ensures Decimal(n, width)[width - 1 - k] == '0' + (n / Power10(k) % 10) as char
    decreases width
  {
    if k > 0 {
      DecimalDigits(n / 10, width - 1, k - 1);
      TenTimes(n, Power10(k - 1));
    }
  }

  lemma TenTimes(n: nat, p: nat)
    requires p > 0
    ensures n / (10 * p) == n / 10 / p
  {
    DivisionEquation(n, 10);
    DivisionEquation(n / 10, p);
    var q := n / 10 / p;
    assert q * (10 * p) == 10 * (q * p);
    DivModUnique(n, q, 10 * (n / 10 % p) + n % 10, 10 * p);
  }

  /** The text of an integer: eleven characters and a space, the first of them a minus sign if it is negative and
      the others the decimal digits of its magnitude, highest first. */
  lemma TextIs(n: int, k: nat)
    requires Int32(n) && k < 10
    ensures var m := if n < 0 then -n else n;
      && |Text(n)| == 12 && Text(n)[11] == ' ' && Text(n)[0] == (if n < 0 then '-' else '0')
      && Text(n)[10 - k] == '0' + (m / Power10(k) % 10) as char
  {
    if n < 0 {
      DecimalDigits(-n, 10, k);
    } else {
      DecimalDigits(n, 11, k);
      LeadingZero(n);
    }
  }

  lemma LeadingZero(n: nat)
    requires n < W32
    ensures Decimal(n, 11)[0] == '0'
  {
    DecimalDigits(n, 11, 10);
    EnoughDigits(n);
    NoQuotient(n, Power10(10));
  }

  lemma NoQuotient(n: nat, p: nat)
    requires n < p
    ensures n / p == 0
  {
  }

  lemma DigitRoundTrip(d: nat)
    requires d < 10
    ensures IsDigit(Digit(d)) && DigitValue(Digit(d)) == d
  {
  }

  /** Scanning the digits of m onto what has been read so far. */
  lemma {:induction false} ScanDecimal(m: nat, width: nat, n: nat, rest: string)
    requires m < Power10(width) && n * Power10(width) + m < W32
    ensures var r := Scan(Decimal(m, width) + rest, n);
            var t := Scan(rest, n * Power10(width) + m);
            r.hr == t.hr && r.value == t.value && r.used == t.used + width
    decreases width
  {
    if width == 0 {
      assert Decimal(m, 0) + rest == rest;
    } else {
      var p := Power10(width - 1);
      var last := [Digit(m % 10)];
      assert Decimal(m, width) + rest == Decimal(m / 10, width - 1) + (last + rest);
      Shift10(n, p, m);
      ScanDecimal(m / 10, width - 1, n, last + rest);
      DigitRoundTrip(m % 10);
      assert (last + rest)[1..] == rest;
    }
  }

  lemma Shift10(n: nat, p: nat, m: nat)
    requires m < 10 * p && n * (10 * p) + m < W32
    ensures m / 10 < p && n * p + m / 10 < W32
    ensures (10 * (n * p + m / 10) + m % 10) % W32 == n * (10 * p) + m
  {
    assert n * (10 * p) == 10 * (n * p);
  }

  /** Scanning a whole number up to the space behind it. */
  lemma ScanNumber(m: nat, width: nat, rest: string)
    requires m < Power10(width) && m < W32
    ensures Scan(Decimal(m, width) + (" " + rest), 0) == Reading(Ok, m, width + 1)
  {
    var tail := " " + rest;
    assert tail[0] == ' ' && Scan(tail, m) == Reading(Ok, m, 1);
    ScanDecimal(m, width, 0, tail);
  }

  lemma EnoughDigits(m: nat)
    requires m < W32
    ensures m < Power10(10) && m < Power10(11)
  {
    assert Power10(5) == 100_000;
    assert Power10(10) == 10_000_000_000;
  }

  /** What WriteInt writes for n, ReadInt reads as n, taking the twelve characters and no more. */
  lemma RoundTrip(n: int, rest: string)
    requires Int32(n)
    ensures ReadOne(Text(n) + rest) == Reading(Ok, n, 12)
  {
    var m: nat := if n < 0 then 0 - n else n;
    EnoughDigits(m);
    if n < 0 {
      ScanNumber(m, 10, rest);
      WithSign(n, m, rest);
      assert Signed(m, true) == n;
    } else {
      ScanNumber(m, 11, rest);
      FirstIsDigit(m, 11, " " + rest);
      assert Text(n) + rest == Decimal(m, 11) + (" " + rest);
    }
  }

  lemma WithSign(n: int, m: nat, rest: string)
    requires Int32(n) && n < 0 && m == -n
    ensures var s := Text(n) + rest; s[0] == '-' && s[1..] == Decimal(m, 10) + (" " + rest)
  {
    assert Text(n) + rest == "-" + (Decimal(m, 10) + (" " + rest));
  }

  lemma {:induction false} FirstIsDigit(m: nat, width: nat, rest: string)
    requires width > 0
    ensures IsDigit((Decimal(m, width) + rest)[0])
  {
    DigitRoundTrip(m % 10);
    if width > 1 {
      FirstIsDigit(m / 10, width - 1, [Digit(m % 10)] + rest);
      assert Decimal(m, width) + rest == Decimal(m / 10, width - 1) + ([Digit(m % 10)] + rest);
    }
  }

  // ------------------------------------------------------------------------------ any text at all

  predicate AllDigits(s: string) { forall i :: 0 <= i < |s| ==> IsDigit(s[i]) }

  /** The number that digits add to one read before, however large. */
  function Value(n: nat, digits: string): nat
    requires AllDigits(digits)
    decreases |digits|
  {
    if digits == "" then n else Value(10 * n + DigitValue(digits[0]), digits[1..])
  }

  /** Numbers that are the same in 32 bits stay so. */
  lemma {:induction false} SameIn32Bits(n: nat, k: nat, digits: string)
    requires AllDigits(digits)
    ensures Value(n + k * W32, digits) % W32 == Value(n, digits) % W32
    decreases |digits|
  {
    if digits == "" {
      DivisionEquation(n, W32);
      DivModUnique(n + k * W32, n / W32 + k, n % W32, W32);
    } else {
      SameIn32Bits(10 * n + DigitValue(digits[0]), 10 * k, digits[1..]);
    }
  }

  /** Digits up to something that is none. */
  lemma {:induction false} ScanIs(digits: string, tail: string, n: nat)
    requires AllDigits(digits) && (tail == "" || !IsDigit(tail[0])) && n < W32
    ensures Scan(digits + tail, n) ==
            if tail == "" then Reading(ReadFailed, 0, |digits|)
            else if IsSpace(tail[0]) then Reading(Ok, Value(n, digits) % W32, |digits| + 1)
            else Reading(InvalidFormat, 0, |digits| + 1)
    decreases |digits|
  {
    if digits == "" {
      assert digits + tail == tail;
    } else {
      var m := 10 * n + DigitValue(digits[0]);
      assert (digits + tail)[0] == digits[0] && (digits + tail)[1..] == digits[1..] + tail;
      ScanIs(digits[1..], tail, m % W32);
      DivisionEquation(m, W32);
      SameIn32Bits(m % W32, m / W32, digits[1..]);
    }
  }

  /** Every text is digits, perhaps none, and something that is no digit. */
  lemma {:induction false} DigitsThenTail(s: string) returns (digits: string, tail: string)
    ensures s == digits + tail && AllDigits(digits) && (tail == "" || !IsDigit(tail[0]))
    decreases |s|
  {
    if s == "" || !IsDigit(s[0]) {
      digits, tail := "", s;
    } else {
      digits, tail := DigitsThenTail(s[1..]);
      digits := [s[0]] + digits;
    }
  }

  function Negated(n: int, minus: bool): int { if minus then -n else n }

  lemma SignedIs(n: nat, negative: bool)
    requires n < W32
    ensures var i := Signed(n, negative); Int32(i) && (i - Negated(n, negative)) % W32 == 0
  {
  }

  /** What ReadInt makes of any text: the integer that its digits and sign stand for, as far as 32 bits hold it, if
      a blank of one of five kinds follows; otherwise it fails, with or without a character that is the cause.
      No digits at all stand for zero. */
  lemma ReadIs(minus: bool, digits: string, tail: string)
    requires AllDigits(digits) && (tail == "" || !IsDigit(tail[0]))
    requires minus || digits != "" || tail == "" || tail[0] != '-'
    ensures var s := (if minus then "-" else "") + digits + tail;
            var r, v := ReadOne(s), Value(0, digits);
      && (r.hr == Ok <==> tail != "" && tail[0] in " \t\r\n\0") && (r.hr == ReadFailed <==> tail == "")
      && r.used == |s| - |tail| + (if tail == "" then 0 else 1)
      && (if r.hr == Ok then Int32(r.value) && (r.value - Negated(v, minus)) % W32 == 0 else r.value == 0)
  {
    var v := Value(0, digits);
    ScanIs(digits, tail, 0);
    SignedIs(v % W32, minus);
    if minus {
      assert ("-" + digits + tail)[1..] == digits + tail;
    } else {
      assert "" + digits + tail == digits + tail;
      if digits != "" { assert IsDigit(digits[0]) && (digits + tail)[0] == digits[0]; }
    }
    if tail != "" {
      assert " \t\r\n\0" == [' ', '\t', '\r', '\n', '\0'];
      ReducedTwice(Signed(v % W32, minus), v, minus);
    }
  }

  lemma ReducedTwice(i: int, v: nat, minus: bool)
    requires var n := v % W32; (i - Negated(n, minus)) % W32 == 0
    ensures (i - Negated(v, minus)) % W32 == 0
  {
  }

  predicate AllInt32(ns: seq<int>) { forall i :: 0 <= i < |ns| ==> Int32(ns[i]) }

  function Written(ns: seq<int>): string
    requires AllInt32(ns)
  {
    if ns == [] then "" else Text(ns[0]) + Written(ns[1..])
  }

  /** k reads one after the other, as long as they succeed. */
  function ReadMany(s: string, k: nat): (seq<int>, string) {
    if k == 0 then ([], s)
    else
      var r := ReadOne(s);
      if !r.hr.Ok? then ([], s)
      else
        var (ns, rest) := ReadMany(s[r.used..], k - 1);
        ([r.value] + ns, rest)
  }

  /** Any list of integers comes back as it was written, and the stream stands behind the last of them. */
  lemma {:induction false} ListRoundTrip(ns: seq<int>, rest: string)
    requires AllInt32(ns)
    ensures ReadMany(Written(ns) + rest, |ns|) == (ns, rest)
  {
    if ns == [] {
      assert "" + rest == rest;
    } else {
      var s := Written(ns) + rest;
      var tail := Written(ns[1..]) + rest;
      assert s == Text(ns[0]) + tail;
      RoundTrip(ns[0], tail);
      assert s[12..] == tail;
      ListRoundTrip(ns[1..], rest);
      assert [ns[0]] + ns[1..] == ns;
    }
  }

  // ---------------------------------------------------------------------------------- the stream

  class Stream {
    var data: string
    var pos: nat

    predicate Valid()
      reads this
    {
      pos <= |data|
    }

    constructor ()
      ensures Valid() && data == "" && pos == 0
    {
      data, pos := "", 0;
    }

    /** IStream::Read of one character; a stream that has none left fails. */
    method Read() returns (ok: bool, c: char)
      requires Valid()
      modifies this`pos
      ensures Valid() && ok == (old(pos) < |data|)
      ensures ok ==> c == data[old(pos)] && pos == old(pos) + 1
      ensures !ok ==> pos == old(pos)
    {
      if pos == |data| { return false, ' '; }
      ok, c, pos := true, data[pos], pos + 1;
    }

    /** WriteInt at the end of the stream. */
    method WriteInt(n: int)
      requires Valid() && Int32(n)
      modifies this`data
      ensures Valid() && data == old(data) + Text(n)
    {
      data := data + Text(n);
    }

    /** ReadInt. */
    method ReadInt() returns (hr: Hr, value: int)
      requires Valid()
      modifies this`pos
      ensures Valid() && pos >= old(pos)
      ensures Reading(hr, value, pos - old(pos)) == ReadOne(data[old(pos)..])
    {
      var negative := false;
      var ok, c := Read();
      if !ok { return ReadFailed, 0; }
      if c == '-' {
        negative := true;
        ok, c := Read();
        if !ok { return ReadFailed, 0; }
      }
      assert data[pos - 1..] == data[old(pos)..][if negative then 1 else 0..];
      var n;
      hr, n := ReadDigits(c);
      value := if hr == Ok then Signed(n, negative) else 0;
    }

    /** The loop of ReadInt, from a character that has been read already. */
    method ReadDigits(first: char) returns (hr: Hr, n: nat)
      requires Valid() && pos > 0 && first == data[pos - 1]
      modifies this`pos
      ensures Valid() && pos >= old(pos)
      ensures Reading(hr, n, pos - old(pos) + 1) == Scan(data[old(pos) - 1..], 0)
    {
      var c := first;
      n := 0;
      ghost var whole := Scan(data[pos - 1..], 0);
      while true
        invariant old(pos) <= pos <= |data| && c == data[pos - 1] && n < W32
        invariant Continues(whole, Scan(data[pos - 1..], n), pos - old(pos))
        decreases |data| - pos
      {
        ghost var s, before := data[pos - 1..], n;
        assert s[0] == c && s[1..] == data[pos..];
        if IsDigit(c) {
          n := (10 * n + DigitValue(c)) % W32;
        } else if IsSpace(c) {
          return Ok, n;
        } else {
          return InvalidFormat, 0;
        }
        var ok;
        ok, c := Read();
        if !ok {
          assert s[1..] == "" && Scan(s, before) == Reading(ReadFailed, 0, 1);
          return ReadFailed, 0;
        }
      }
    }
  }

  /** Having scanned so many characters already. */
  predicate Continues(whole: Reading, rest: Reading, scanned: int) {
    scanned >= 0 && whole == rest.(used := rest.used + scanned)
  }
}
