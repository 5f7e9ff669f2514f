/**
 * Decimal numbers: the printer of internal/webui/handlers/containers.go and the parser of
 * internal/discovery/discovery.go.
 */
module Decimals {
  import opened Wrappers

  newtype int64 = x: int | -0x8000_0000_0000_0000 <= x < 0x8000_0000_0000_0000

  newtype uint32 = x: int | 0 <= x < 0x1_0000_0000

  const MIN_INT64: int64 := -0x8000_0000_0000_0000

  const MAX_PORT := 65535

  // ---- What digit strings mean ----

  function Digit(d: nat): char
    requires d < 10
  {
    '0' + d as char
  }

  /** The decimal form of n, without leading zeros. */
  function Decimal(n: nat): string {
    if n < 10 then [Digit(n)] else Decimal(n / 10) + [Digit(n % 10)]
  }

  predicate IsDigit(c: char) {
    '0' <= c <= '9'
  }

  predicate AllDigits(s: string) {
    forall c :: c in s ==> IsDigit(c)
  }

  function Value(s: string): nat
    requires AllDigits(s)
  {
    if s == "" then 0
    else
      assert s[|s| - 1] in s;
      10 * Value(s[..|s| - 1]) + (s[|s| - 1] as int - '0' as int)
  }

  lemma {:induction false} DecimalValue(n: nat)
    ensures AllDigits(Decimal(n)) && Value(Decimal(n)) == n
    ensures n > 0 ==> Decimal(n)[0] != '0'
  {
    if n < 10 {
      assert Decimal(n)[..0] == "";
    } else {
      DecimalValue(n / 10);
      var s := Decimal(n);
      assert s[..|s| - 1] == Decimal(n / 10);
    }
  }

  /** Reading on never makes the value smaller. */
  lemma {:induction false} ValueGrows(s: string, i: nat)
    requires AllDigits(s) && i <= |s|
    ensures AllDigits(s[..i]) && Value(s[..i]) <= Value(s)
    decreases |s| - i
  {
    if i == |s| {
      assert s[..i] == s;
    } else {
      ValueGrows(s, i + 1);
      var longer := s[..i + 1];
      assert longer[..i] == s[..i];
      assert longer[|longer| - 1] in longer;
      assert Value(longer) >= 10 * Value(longer[..|longer| - 1]);
    }
  }

  // ---- Printing ----

  function Pow10(k: nat): nat {
    if k == 0 then 1 else 10 * Pow10(k - 1)
  }

  /** Negation of a 64-bit integer wraps around on the smallest one. */
  function Negate(i: int64): int64 {
    if i == MIN_INT64 then i else -i
  }

  lemma Pow10Of19()
    ensures Pow10(19) == 10_000_000_000_000_000_000
  {
    assert Pow10(4) == 10_000;
    assert Pow10(8) == 100_000_000;
    assert Pow10(12) == 1_000_000_000_000;
    assert Pow10(16) == 10_000_000_000_000_000;
  }

  /** The digits of m that are still to be written. */
  function Leading(m: nat): string {
    if m > 0 then Decimal(m) else ""
  }

  /**
   * With `tail` written from position pos on, m is still to be written in front, and there is room for it and a sign.
   */
  ghost predicate Pending(whole: int, m: int, pos: int, tail: string) {
    if whole <= 0 then m == whole && pos == 20 && tail == ""
    else 0 <= m && 1 <= pos <= 20 && m < Pow10(pos - 1) && Decimal(whole) == Leading(m) + tail
  }

  lemma PendingStart(whole: int)
    requires whole < 0x8000_0000_0000_0000
    ensures Pending(whole, whole, 20, "")
  {
    Pow10Of19();
    hide Pow10, Decimal;
  }

  function LastDigit(m: int64): char
    requires m >= 0
  {
    Digit((m % 10) as nat)
  }

  function OtherDigits(m: int64): int64
    requires m >= 0
  {
    m / 10
  }

  lemma PendingStep(whole: int, m: int64, pos: int, tail: string)
    requires m > 0 && Pending(whole, m as int, pos, tail)
    ensures 2 <= pos <= 20 && 0 <= OtherDigits(m) < m
    ensures Pending(whole, OtherDigits(m) as int, pos - 1, [LastDigit(m)] + tail)
  {
    assert OtherDigits(m) as int == m as int / 10 && LastDigit(m) == Digit(m as int % 10);
    assert Leading(m as int) + tail == Leading(m as int / 10) + ([LastDigit(m)] + tail);
  }

  lemma PendingEnd(whole: int, m: int, pos: int, tail: string)
    requires m <= 0 && Pending(whole, m, pos, tail)
    ensures 1 <= pos <= 20
    ensures tail == if whole > 0 then Decimal(whole) else ""
  {
    hide Decimal;
  }

  /** The digit loop of itoa: fills the buffer from its end, and not at all for what is not positive. */
  method WriteDigits(buf: array<char>, whole: int64) returns (pos: nat)
    requires buf.Length == 20
    modifies buf
    ensures 1 <= pos <= 20
    ensures buf[pos..] == if whole > 0 then Decimal(whole as int) else ""
  {
    hide *;
    var m := whole;
    pos := 20;
    PendingStart(whole as int);
    assert buf[20..] == "";
    while m > 0
      invariant 0 <= pos <= 20 && Pending(whole as int, m as int, pos, buf[pos..])
    {
      ghost var tail := buf[pos..];
      PendingStep(whole as int, m, pos, tail);
      pos := pos - 1;
      buf[pos] := LastDigit(m);
      assert buf[pos..] == [LastDigit(m)] + tail;
      m := OtherDigits(m);
    }
    PendingEnd(whole as int, m as int, pos, buf[pos..]);
  }

  /** The decimal form, but for the smallest 64-bit integer: negating it has no effect, so its digits are lost. */
  method Itoa(i: int64) returns (s: string)
    ensures i != MIN_INT64 ==> s == if i < 0 then "-" + Decimal(-(i as int)) else Decimal(i as int)
    ensures i == MIN_INT64 ==> s == "-"
  {
    if i == 0 {
      return "0";
    }
    hide Decimal;
    var neg := i < 0;
    var m := if neg then Negate(i) else i;
    var buf := new char[20](_ => '0');
    var pos := WriteDigits(buf, m);
    ghost var digits := buf[pos..];
    if neg {
      pos := pos - 1;
      buf[pos] := '-';
      assert buf[pos..] == "-" + digits;
    }
    s := buf[pos..];
  }

  // ---- Parsing ----

  /** The port a string denotes: digits only, leading zeros allowed, value 1 to 65535. */
  function PortNumber(s: string): Option<nat> {
    if AllDigits(s) && 1 <= Value(s) <= MAX_PORT then Some(Value(s)) else None
  }

  /** parsePortNumber: the running value never leaves 32 bits, and leaving the range early is final. */
  method ParsePortNumber(s: string) returns (r: Option<nat>)
    ensures r == PortNumber(s)
  {
    var n: uint32 := 0;
    for i := 0 to |s|
      invariant AllDigits(s[..i]) && n as int == Value(s[..i]) && n as int <= MAX_PORT
    {
      var c := s[i];
      assert c in s;
      if c < '0' || c > '9' {
        return None;
      }
      assert s[..i + 1][..i] == s[..i];
      n := n * 10 + (c as int - '0' as int) as uint32;
      if n as int > MAX_PORT {
        if AllDigits(s) {
          ValueGrows(s, i + 1);
        }
        return None;
      }
    }
    assert s[..|s|] == s;
    if n == 0 {
      return None;
    }
    r := Some(n as int);
  }

  /** Parsing the printed form of a port number gives the number back. */
  lemma PortNumberOfDecimal(n: nat)
    requires 1 <= n <= MAX_PORT
    ensures PortNumber(Decimal(n)) == Some(n)
  {
    DecimalValue(n);
  }
}
