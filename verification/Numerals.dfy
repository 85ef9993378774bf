/** Integers as text (nutty/log/LogStream.cpp:12-53): the digit loops with C's truncating division, the reversal in
    place, and what the result means to an independent reader. */
module Numerals {
  import opened Arithmetic
  import opened Sequences
  import opened Wrappers

  /** Any signed or unsigned type of up to 64 bits. */
  const MIN_VALUE: int := -0x8000_0000_0000_0000
  const MAX_VALUE: int := 0xFFFF_FFFF_FFFF_FFFF

  function Abs(i: int): nat { if i < 0 then -i else i }

  const DIGITS: string := "9876543210123456789"      // `zero` points at its tenth character
  const DIGITS_HEX: string := "0123456789ABCDEF"

  /* ---- the numeral of a number ---- */

  function Digit(d: nat): char
    requires d < 16
  {
    if d < 10 then '0' + d as char else 'A' + (d - 10) as char
  }

  /** Most significant digit first. */
  function Digits(n: nat, base: nat): (s: string)
    requires 2 <= base <= 16
    ensures s != []
  {
    if n < base then [Digit(n)] else Digits(n / base, base) + [Digit(n % base)]
  }

  /** What a signed number is written as. */
  function Text(v: int): (s: string) {
    if v < 0 then ['-'] + Digits(-v, 10) else Digits(v, 10)
  }

  /* ---- reading a numeral ---- */

  function DigitValue(c: char, base: nat): Option<nat> {
    var d: int := if '0' <= c <= '9' then c as int - '0' as int
                  else if 'A' <= c <= 'F' then c as int - 'A' as int + 10 else 16;
    if d < base then Some(d) else None
  }

  function Parse(s: string, base: nat): Option<nat>
    requires base <= 16
  {
    if s == [] then None
    else
      match DigitValue(s[|s| - 1], base)
      case None => None
      case Some(d) =>
        if |s| == 1 then Some(d)
        else match Parse(s[..|s| - 1], base) case None => None case Some(n) => Some(n * base + d)
  }

  function ParseSigned(s: string): (r: Option<int>) {
    if s != [] && s[0] == '-' then
      var n: Option<int> := Parse(s[1..], 10);
      if n.None? then None else Some(-n.value)
    else
      Parse(s, 10)
  }

  /** No leading zero, and no sign on zero. */
  predicate Canonical(s: string) {
    if s != [] && s[0] == '-' then |s| > 1 && s[1] != '0' else |s| == 1 || (|s| > 1 && s[0] != '0')
  }

  lemma DigitRoundTrip(d: nat, base: nat)
    requires d < base <= 16
    ensures DigitValue(Digit(d), base) == Some(d) && Digit(d) != '-' && (Digit(d) == '0' <==> d == 0)
  {
  }

  lemma DigitOfValue(c: char, base: nat)
    requires base <= 16 && DigitValue(c, base).Some?
    ensures DigitValue(c, base).value < 16 && Digit(DigitValue(c, base).value) == c && c != '-'
  {
  }

  /** Reading the numeral gives the number back; it has no leading zero. */
  lemma {:induction false} DigitsRoundTrip(n: nat, base: nat)
    requires 2 <= base <= 16
    ensures Parse(Digits(n, base), base) == Some(n)
    ensures Digits(n, base)[0] != '-' && (Digits(n, base)[0] == '0' <==> n == 0) && (n == 0 ==> |Digits(n, base)| == 1)
    decreases n
  {
    var s := Digits(n, base);
    if n < base {
      DigitRoundTrip(n, base);
    } else {
      var q, r := n / base, n % base;
      DivMod(n, base);
      DigitsRoundTrip(q, base);
      DigitRoundTrip(r, base);
      SnocParses(Digits(q, base), q, r, base);
    }
  }

  lemma DivMod(n: nat, base: nat)
    requires base >= 2
    ensures n == n / base * base + n % base && n % base < base && (n >= base ==> 0 < n / base < n)
  {
    MulGrows(n / base, base);
  }

  lemma MulGrows(q: nat, base: nat)
    requires base >= 2
    ensures q > 0 ==> q < q * base
  {
  }

  lemma SnocParses(s: string, q: nat, r: nat, base: nat)
    requires r < base <= 16 && s != [] && Parse(s, base) == Some(q) && DigitValue(Digit(r), base) == Some(r)
    ensures Parse(s + [Digit(r)], base) == Some(q * base + r)
  {
    assert (s + [Digit(r)])[..|s|] == s;
  }

  /** And it is the only numeral without a leading zero that reads so. */
  lemma {:induction false} DigitsAreUnique(s: string, base: nat)
    requires 2 <= base <= 16 && Parse(s, base).Some? && (|s| > 1 ==> s[0] != '0')
    ensures s == Digits(Parse(s, base).value, base)
    decreases |s|
  {
    DigitOfValue(s[|s| - 1], base);
    var d := DigitValue(s[|s| - 1], base).value;
    if |s| == 1 {
      assert s == [Digit(d)];
    } else {
      var front := s[..|s| - 1];
      DigitsAreUnique(front, base);
      var n := Parse(front, base).value;
      DigitsRoundTrip(n, base);
      assert n > 0;
      QuotientRemainder(n, base, d);
      assert s == front + [s[|s| - 1]];
    }
  }

  lemma QuotientRemainder(n: nat, base: nat, d: nat)
    requires d < base && n > 0
    ensures (n * base + d) / base == n && (n * base + d) % base == d && n * base + d >= base
  {
    assert n * base + d == base * n + d;
    DivideUnique(n * base + d, base, n, d);
  }

  lemma MulMonotone(a: nat, b: nat, c: nat)
    ensures a <= b ==> c * a <= c * b
  {
  }

  lemma DivideUnique(x: nat, b: nat, q: nat, r: nat)
    requires b > 0 && x == b * q + r && r < b
    ensures x / b == q && x % b == r
  {
    var q', r' := x / b, x % b;
    assert x == b * q' + r';
    MulMonotone(q' + 1, q, b);
    MulMonotone(q + 1, q', b);
  }

  lemma TextReadsBack(v: int)
    ensures Canonical(Text(v)) && ParseSigned(Text(v)) == Some(v)
  {
    DigitsRoundTrip(Abs(v), 10);
    assert v < 0 ==> Text(v)[1..] == Digits(-v, 10);
  }

  lemma OnlyTextReadsBack(s: string)
    requires Canonical(s) && ParseSigned(s).Some?
    ensures s == Text(ParseSigned(s).value)
  {
    if s[0] == '-' {
      DigitsAreUnique(s[1..], 10);
      DigitsRoundTrip(Parse(s[1..], 10).value, 10);
      assert s == ['-'] + s[1..];
    } else {
      DigitsAreUnique(s, 10);
    }
  }

  /** The text of a number is the one canonical numeral that reads back as that number, for every number,
      the smallest included. */
  lemma TextIsTheNumeral(v: int, s: string)
    ensures s == Text(v) <==> Canonical(s) && ParseSigned(s) == Some(v)
  {
    TextReadsBack(v);
    if Canonical(s) && ParseSigned(s) == Some(v) {
      OnlyTextReadsBack(s);
    }
  }

  function Pow(base: nat, k: nat): nat {
    if k == 0 then 1 else base * Pow(base, k - 1)
  }

  lemma {:induction false} DigitsLength(n: nat, base: nat, k: nat)
    requires 2 <= base <= 16 && 1 <= k && n < Pow(base, k)
    ensures |Digits(n, base)| <= k
    decreases k
  {
    if n >= base {
      assert k > 1;
      assert n / base < Pow(base, k - 1) by {
        assert n < base * Pow(base, k - 1);
        assert n == base * (n / base) + n % base;
        MulMonotone(Pow(base, k - 1), n / base, base);
      }
      DigitsLength(n / base, base, k - 1);
    }
  }

  /** Twenty characters are enough for any value; sixteen hexadecimal digits for any address. */
  lemma TextFits(v: int)
    requires MIN_VALUE <= v <= MAX_VALUE
    ensures |Text(v)| <= 20
    ensures 0 <= v ==> |Digits(v, 16)| <= 16
  {
    assert Pow(10, 4) == 10000;
    assert Pow(10, 8) == 1_0000_0000;
    assert Pow(10, 12) == 1_0000_0000_0000;
    assert Pow(10, 16) == 1_0000_0000_0000_0000;
    assert Pow(10, 19) == 1000_0000_0000_0000_0000;
    assert Pow(10, 20) == 1_0000_0000_0000_0000_0000;
    assert Pow(16, 4) == 0x1_0000;
    assert Pow(16, 8) == 0x1_0000_0000;
    assert Pow(16, 12) == 0x1_0000_0000_0000;
    assert Pow(16, 16) == 0x1_0000_0000_0000_0000;
    DigitsLength(Abs(v), 10, if v < 0 then 19 else 20);
    if 0 <= v {
      DigitsLength(v, 16, 16);
    }
  }

  /* ---- the loops ---- */

  function Reversed(s: string): (r: string)
    ensures |r| == |s| && forall i | 0 <= i < |s| :: r[i] == s[|s| - 1 - i]
  {
    seq(|s|, i requires 0 <= i < |s| => s[|s| - 1 - i])
  }

  /** The digits in the order the loops produce them. */
  function Backward(n: nat, base: nat): (s: string)
    requires 2 <= base <= 16
    ensures s != []
  {
    [Digit(n % base)] + if n < base then [] else Backward(n / base, base)
  }

  lemma {:induction false} BackwardIsReversed(n: nat, base: nat)
    requires 2 <= base <= 16
    ensures Reversed(Backward(n, base)) == Digits(n, base)
    decreases n
  {
    if n < base {
      DivMod(n, base);
      assert n % base == n by { DivideUnique(n, base, 0, n); }
    } else {
      DivMod(n, base);
      BackwardIsReversed(n / base, base);
      ReversedCons(Digit(n % base), Backward(n / base, base));
    }
  }

  lemma ReversedCons(c: char, s: string)
    ensures Reversed([c] + s) == Reversed(s) + [c]
  {
  }

  lemma ReversedSnoc(s: string, c: char)
    ensures Reversed(s + [c]) == [c] + Reversed(s)
  {
  }

  lemma ReversedInPlace(was: string, now: string, first: nat, last: nat)
    requires first <= last <= |was| == |now|
    requires forall k | first <= k < last :: now[k] == was[first + last - 1 - k]
    requires forall k | 0 <= k < first || last <= k < |was| :: now[k] == was[k]
    ensures now[first..last] == Reversed(was[first..last])
    ensures now[..first] == was[..first] && now[last..] == was[last..]
  {
    forall k | 0 <= k < last - first ensures now[first..last][k] == Reversed(was[first..last])[k] {
      assert now[first + k] == was[first + last - 1 - (first + k)];
    }
  }

  /** `std::reverse(first, last)`. */
  method ReverseRange(buf: array<char>, first: nat, last: nat)
    requires first <= last <= buf.Length
    modifies buf
    ensures buf[first..last] == Reversed(old(buf[first..last]))
    ensures buf[..first] == old(buf[..first]) && buf[last..] == old(buf[last..])
  {
    hide Reversed;
    ghost var was := buf[..];
    var lo, hi := first, last;
    while lo < hi
      invariant first <= lo <= hi + 1 && hi <= last && lo - first == last - hi
      invariant forall k | lo <= k < hi :: buf[k] == was[k]
      invariant forall k | first <= k < lo || hi <= k < last :: buf[k] == was[first + last - 1 - k]
      invariant forall k | 0 <= k < first || last <= k < buf.Length :: buf[k] == was[k]
    {
      hi := hi - 1;
      buf[lo], buf[hi] := buf[hi], buf[lo];
      lo := lo + 1;
    }
    ReversedInPlace(was, buf[..], first, last);
  }

  /** One turn of the loop in `convert`. */
  lemma LowDigit(i: int, base: nat)
    requires 2 <= base <= 16
    ensures Abs(TruncDiv(i, base)) == Abs(i) / base && Abs(TruncMod(i, base)) == Abs(i) % base
    ensures (i <= 0 ==> TruncDiv(i, base) <= 0 && TruncMod(i, base) <= 0)
    ensures (i >= 0 ==> TruncDiv(i, base) >= 0 && TruncMod(i, base) >= 0)
    ensures TruncDiv(i, base) == 0 <==> Abs(i) < base
  {
    DivMod(Abs(i), base);
    if Abs(i) < base {
      DivideUnique(Abs(i), base, 0, Abs(i));
    }
  }

  lemma DigitTable(lsd: int)
    requires -9 <= lsd <= 9
    ensures DIGITS[9 + lsd] == Digit(Abs(lsd))
  {
  }

  lemma HexTable(lsd: nat)
    requires lsd < 16
    ensures DIGITS_HEX[lsd] == Digit(lsd)
  {
  }

  lemma BackwardLength(n: nat, base: nat)
    requires 2 <= base <= 16
    ensures |Backward(n, base)| == |Digits(n, base)|
  {
    BackwardIsReversed(n, base);
  }

  /** `*p++ = c`. */
  method Put(buf: array<char>, ghost at: nat, p: nat, c: char)
    requires at <= p < buf.Length
    modifies buf
    ensures buf[at..p + 1] == old(buf[at..p]) + [c]
    ensures buf[..at] == old(buf[..at]) && buf[p + 1..] == old(buf[p + 1..])
  {
    buf[p] := c;
  }

  lemma NextDigit(i: int)
    ensures -9 <= TruncMod(i, 10) <= 9 && (TruncDiv(i, 10) != 0 ==> Abs(TruncDiv(i, 10)) < Abs(i))
    ensures Backward(Abs(i), 10) ==
            [DIGITS[9 + TruncMod(i, 10)]] + if TruncDiv(i, 10) != 0 then Backward(Abs(TruncDiv(i, 10)), 10) else []
  {
    LowDigit(i, 10);
    DigitTable(TruncMod(i, 10));
  }

  /** The do-while loop of `convert`. */
  method WriteDigits(buf: array<char>, at: nat, value: int) returns (p: nat)
    requires at + |Digits(Abs(value), 10)| <= buf.Length
    modifies buf
    ensures at <= p <= buf.Length && buf[at..p] == Backward(Abs(value), 10)
    ensures buf[..at] == old(buf[..at]) && buf[p..] == old(buf[p..])
  {
    hide Backward, Digits, TruncMod, TruncDiv;
    ghost var digits := Backward(Abs(value), 10);
    BackwardLength(Abs(value), 10);
    var i, more := value, true;
    p := at;
    while more
      invariant at <= p <= buf.Length
      invariant buf[at..p] + (if more then Backward(Abs(i), 10) else []) == digits
      invariant buf[..at] == old(buf[..at]) && buf[p..] == old(buf[p..])
      decreases Abs(i), more
    {
      NextDigit(i);
      var lsd := TruncMod(i, 10);
      i := TruncDiv(i, 10);
      ghost var rest := if i != 0 then Backward(Abs(i), 10) else [];
      Regroup(buf[at..p], [DIGITS[9 + lsd]], rest);
      assert |buf[at..p]| + 1 <= |digits|;
      ghost var after := buf[p..];
      Put(buf, at, p, DIGITS[9 + lsd]);
      p := p + 1;
      assert buf[p..] == after[1..];
      more := i != 0;
    }
  }

  lemma TextBackward(v: int)
    requires MIN_VALUE <= v <= MAX_VALUE
    ensures var s := Backward(Abs(v), 10) + (if v < 0 then ['-'] else []);
            Reversed(s) == Text(v) && |s| <= 20 && |Digits(Abs(v), 10)| <= |s|
  {
    TextFits(v);
    BackwardIsReversed(Abs(v), 10);
    ReversedSnoc(Backward(Abs(v), 10), '-');
    assert Backward(Abs(v), 10) + [] == Backward(Abs(v), 10);
  }

  /** The loop and the sign. */
  method WriteBackward(buf: array<char>, at: nat, value: int) returns (p: nat)
    requires MIN_VALUE <= value <= MAX_VALUE && at + |Text(value)| < buf.Length
    modifies buf
    ensures at <= p <= at + 20 && p < buf.Length && Reversed(buf[at..p]) == Text(value)
    ensures buf[..at] == old(buf[..at]) && buf[p..] == old(buf[p..])
  {
    hide Backward, Digits, Text, Reversed;
    TextBackward(value);
    p := WriteDigits(buf, at, value);
    if value < 0 {
      ghost var after := buf[p..];
      Put(buf, at, p, '-');
      p := p + 1;
      assert buf[p..] == after[1..];
    }
  }

  /** `convert`: writes `value` as text at `at`, with a NUL after it, and touches nothing else. */
  method Convert(buf: array<char>, at: nat, value: int) returns (n: nat)
    requires MIN_VALUE <= value <= MAX_VALUE && at + |Text(value)| < buf.Length
    modifies buf
    ensures n == |Text(value)| <= 20 && buf[at..at + n] == Text(value) && buf[at + n] == '\0'
    ensures Canonical(buf[at..at + n]) && ParseSigned(buf[at..at + n]) == Some(value)
    ensures buf[..at] == old(buf[..at]) && buf[at + n + 1..] == old(buf[at + n + 1..])
  {
    hide Text, Reversed, Canonical, ParseSigned;
    TextReadsBack(value);
    var p := WriteBackward(buf, at, value);
    ghost var after := buf[p..];
    n := Finish(buf, at, p);
    assert buf[p + 1..] == after[1..];
  }

  /** The NUL, the reversal and the length. */
  method Finish(buf: array<char>, at: nat, p: nat) returns (n: nat)
    requires at <= p < buf.Length
    modifies buf
    ensures n == p - at && buf[at..p] == Reversed(old(buf[at..p])) && buf[p] == '\0'
    ensures buf[..at] == old(buf[..at]) && buf[p + 1..] == old(buf[p + 1..])
  {
    ghost var digits, after := buf[at..p], buf[p + 1..];
    buf[p] := '\0';
    assert buf[at..p] == digits && buf[p..][1..] == after;
    ghost var tail := buf[p..];
    ReverseRange(buf, at, p);
    assert buf[p..] == tail && buf[p] == tail[0] && buf[p + 1..] == tail[1..];
    n := p - at;
  }

  lemma HexBackward(v: nat)
    requires v <= MAX_VALUE
    ensures Reversed(Backward(v, 16)) == Digits(v, 16) && |Digits(v, 16)| <= 16 && |Backward(v, 16)| <= 16
    ensures Parse(Digits(v, 16), 16) == Some(v) && (|Digits(v, 16)| > 1 ==> Digits(v, 16)[0] != '0')
  {
    TextFits(v);
    BackwardIsReversed(v, 16);
    DigitsRoundTrip(v, 16);
  }

  /** `convertHex`. */
  method ConvertHex(buf: array<char>, at: nat, value: nat) returns (n: nat)
    requires value <= MAX_VALUE && at + |Digits(value, 16)| < buf.Length
    modifies buf
    ensures n == |Digits(value, 16)| <= 16 && buf[at..at + n] == Digits(value, 16) && buf[at + n] == '\0'
    ensures Parse(buf[at..at + n], 16) == Some(value) && (n > 1 ==> buf[at..at + n][0] != '0')
    ensures buf[..at] == old(buf[..at]) && buf[at + n + 1..] == old(buf[at + n + 1..])
  {
    hide Backward, Digits, Parse, Reversed;
    HexBackward(value);
    var p := WriteHexDigits(buf, at, value);
    ghost var after := buf[p..];
    n := Finish(buf, at, p);
    assert buf[p + 1..] == after[1..];
  }

  /** The do-while loop of `convertHex`. */
  method WriteHexDigits(buf: array<char>, at: nat, value: nat) returns (p: nat)
    requires at + |Digits(value, 16)| <= buf.Length
    modifies buf
    ensures at <= p <= buf.Length && buf[at..p] == Backward(value, 16)
    ensures buf[..at] == old(buf[..at]) && buf[p..] == old(buf[p..])
  {
    ghost var digits := Backward(value, 16);
    BackwardLength(value, 16);
    var i, more := value, true;
    p := at;
    while more
      invariant at <= p <= buf.Length
      invariant buf[at..p] + (if more then Backward(i, 16) else []) == digits
      invariant buf[..at] == old(buf[..at]) && buf[p..] == old(buf[p..])
      decreases i, more
    {
      var lsd := i % 16;
      HexTable(lsd);
      i := i / 16;
      ghost var rest := if i != 0 then Backward(i, 16) else [];
      Regroup(buf[at..p], [DIGITS_HEX[lsd]], rest);
      assert |buf[at..p]| + 1 <= |digits|;
      ghost var after := buf[p..];
      Put(buf, at, p, DIGITS_HEX[lsd]);
      p := p + 1;
      assert buf[p..] == after[1..];
      more := i != 0;
    }
  }
}
