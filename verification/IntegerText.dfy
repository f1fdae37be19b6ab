/** misc.c: printing 64-bit integers in decimal and parsing them back. */
module IntegerText {
  import opened Arithmetic

  const LL_MAX: int := 0x7fff_ffff_ffff_ffff
  const LL_MIN: int := -0x8000_0000_0000_0000
  const ULL_MAX: int := 0xffff_ffff_ffff_ffff
  const MAXDIGS: nat := 22

  // ----- decimal digits

  function Digit(d: int): (c: char)
    requires 0 <= d <= 9
    ensures '0' <= c <= '9' && c as int == '0' as int + d
  {
    ('0' as int + d) as char
  }

  /** The decimal digits of n. */
  function Digits(n: nat): (s: string)
    ensures |s| > 0 && forall i :: 0 <= i < |s| ==> '0' <= s[i] <= '9'
  {
    if n <= 9 then [Digit(n)] else Digits(n / 10) + [Digit(n % 10)]
  }

  lemma {:induction false} DigitsLength(n: nat, k: nat, p: nat)
    requires p == Pow10(k) && n < p && k > 0
    ensures |Digits(n)| <= k
  {
    if n > 9 {
      DigitsLength(n / 10, k - 1, Pow10(k - 1));
    }
  }

  function Pow10(k: nat): (p: nat)
    ensures p > 0
  {
    if k == 0 then 1 else 10 * Pow10(k - 1)
  }

  // ----- printing

  function Fill(c: char, n: nat): (s: string)
    ensures |s| == n && forall i :: 0 <= i < n ==> s[i] == c
  {
    seq(n, _ => c)
  }

  /** The padding rules: a field of the given width, filled with zeroes after the sign or with blanks before it. */
  function Padded(prefix: string, body: string, width: nat, padZero: bool): string {
    var k := |prefix| + |body|;
    if width <= k then prefix + body
    else if padZero then prefix + Fill('0', width - k) + body
    else Fill(' ', width - k) + prefix + body
  }

  /** The result of %ld, and of %lu for values that are not negative. */
  function Printed(v: int, width: nat, padZero: bool): string {
    Padded(if v < 0 then "-" else "", Digits(if v < 0 then -v else v), width, padZero)
  }

  /** _lowdigit, on a 64-bit pattern with the high bit set: u is its unsigned value. */
  method LowDigit(u: nat) returns (rest: nat, c: char)
    requires LL_MAX < u <= ULL_MAX
    ensures rest == u / 10 && c == Digit(u % 10)
  {
    var lowbit := u % 2;
    var value := u / 2;
    rest := value / 5;
    c := Digit(value % 5 * 2 + lowbit);
  }

  lemma {:induction false} SignedUnique(x: int, y: int, k: int)
    requires x == y + k * WORD && -WORD / 2 <= y < WORD / 2
    ensures Signed(x) == y
  {
    var j := (Signed(x) - x) / WORD;
    assert Signed(x) == x + j * WORD;
    assert Signed(x) - y == (k + j) * WORD;
    MultipleOutside(k + j, WORD);
  }

  lemma {:induction false} SignedOff(x: int) returns (k: int)
    ensures Signed(x) == x + k * WORD
  {
    k := (Signed(x) - x) / WORD;
  }

  /** The digit is computed in 32-bit arithmetic; the wrap-around cancels. */
  lemma {:induction false} WrappedDigit(q: nat)
    ensures Signed(Signed(q) - Signed(Signed(q / 10) * 10)) == q % 10
  {
    var a := SignedOff(q);
    var b := SignedOff(q / 10);
    var c := SignedOff(Signed(q / 10) * 10);
    var x := Signed(q) - Signed(Signed(q / 10) * 10);
    assert x == q % 10 + (a - 10 * b - c) * WORD;
    SignedUnique(x, q % 10, a - 10 * b - c);
  }

  lemma {:induction false} DigitsStep(n: nat)
    requires n > 9
    ensures Digits(n) == Digits(n / 10) + [Digit(n % 10)] && |Digits(n / 10)| == |Digits(n)| - 1
  {
  }

  lemma {:induction false} DigitsSome(n: nat)
    ensures |Digits(n)| > 0
  {
  }

  lemma {:induction false} DigitsOne(n: nat)
    requires n <= 9
    ensures Digits(n) == [Digit(n)]
  {
  }

  /** The decimal loop: digits are developed from the end of the buffer towards its start. */
  method Develop(buf: array<char>, end: nat, val: nat) returns (bp: nat)
    requires end <= buf.Length && |Digits(val)| <= end
    modifies buf
    ensures bp <= end && buf[bp..end] == Digits(val) && buf[end..] == old(buf[end..])
  {
    hide Signed;
    hide Digits;
    bp := end;
    var qval := val;
    while qval > 9
      invariant 0 <= bp <= end <= buf.Length
      invariant Digits(val) == Digits(qval) + buf[bp..end]
      invariant buf[end..] == old(buf[end..])
    {
      ghost var q, done := qval, buf[bp..end];
      DigitsStep(q);
      DigitsSome(q / 10);
      var n := Signed(qval);
      qval := qval / 10;
      bp := bp - 1;
      WrappedDigit(q);
      buf[bp] := Digit(Signed(n - Signed(Signed(qval) * 10)));
      assert buf[bp..end] == [Digit(q % 10)] + done;
    }
    ghost var done := buf[bp..end];
    DigitsOne(qval);
    bp := bp - 1;
    buf[bp] := Digit(qval);
    assert buf[bp..end] == [Digit(qval)] + done;
  }

  lemma {:induction false} FitsBuffer(n: nat)
    requires n <= ULL_MAX
    ensures |Digits(n)| <= 20
  {
    assert Pow10(5) == 100000;
    assert Pow10(10) == 100000 * Pow10(5);
    assert Pow10(15) == 100000 * Pow10(10);
    assert Pow10(20) == 100000 * Pow10(15);
    DigitsLength(n, 20, Pow10(20));
  }

  /** Padding and prefix, character by character. */
  method Emit(prefix: string, body: string, width: nat, padZero: bool) returns (out: string)
    ensures out == Padded(prefix, body, width, padZero)
  {
    var k := |prefix| + |body|;
    var zeroes := 0;
    out := [];
    if width > k {
      if padZero {
        zeroes := width - k;
      } else {
        out := Pad(out, ' ', width - k);
      }
    }
    out := out + prefix;
    out := Pad(out, '0', zeroes);
    out := out + body;
  }

  method Pad(out: string, c: char, n: nat) returns (out': string)
    ensures out' == out + Fill(c, n)
  {
    out' := out;
    var nn := n;
    while nn > 0
      invariant 0 <= nn <= n && out' == out + Fill(c, n - nn)
    {
      assert Fill(c, n - nn) + [c] == Fill(c, n - nn + 1);
      out' := out' + [c];
      nn := nn - 1;
    }
  }

  /** The digits of a magnitude; above LL_MAX the last digit is split off first, so the rest is a positive signed
      value. */
  method Body(u: nat) returns (s: string)
    requires u <= ULL_MAX
    ensures s == Digits(u)
  {
    FitsBuffer(u);
    var buf := new char[MAXDIGS];
    if u > LL_MAX {
      var rest, c := LowDigit(u);
      buf[MAXDIGS - 1] := c;
      DigitsStep(u);
      hide Digits;
      var bp := Develop(buf, MAXDIGS - 1, rest);
      assert buf[bp..] == buf[bp..MAXDIGS - 1] + buf[MAXDIGS - 1..];
      s := buf[bp..];
    } else {
      var bp := Develop(buf, MAXDIGS, u);
      s := buf[bp..];
    }
  }

  /** %ld */
  method FormatSigned(v: int, width: nat, padZero: bool) returns (out: string)
    requires LL_MIN <= v <= LL_MAX
    ensures out == Printed(v, width, padZero)
  {
    hide Padded;
    hide Digits;
    var prefix, val := "", v;
    if val < 0 {
      prefix := "-";
      val := -val;
    }
    var body := Body(val);
    out := Emit(prefix, body, width, padZero);
  }

  /** %lu */
  method FormatUnsigned(v: int, width: nat, padZero: bool) returns (out: string)
    requires 0 <= v <= ULL_MAX
    ensures out == Printed(v, width, padZero)
  {
    hide Padded;
    hide Digits;
    var body := Body(v);
    out := Emit("", body, width, padZero);
  }

  // ----- parsing

  predicate IsSpace(c: char) {
    c == ' ' || '\t' <= c <= '\r'
  }

  /** The value of a digit or letter; 36 for anything else. */
  function DigitValue(c: char): (d: nat)
    ensures d <= 36
  {
    if '0' <= c <= '9' then c as int - '0' as int
    else if 'a' <= c <= 'z' then c as int - 'a' as int + 10
    else if 'A' <= c <= 'Z' then c as int - 'A' as int + 10
    else 36
  }

  /** The number of leading characters of s that satisfy IsSpace. */
  function Spaces(s: string): (n: nat)
    ensures n <= |s| && (n < |s| ==> !IsSpace(s[n]))
    ensures forall i :: 0 <= i < n ==> IsSpace(s[i])
  {
    if s == [] || !IsSpace(s[0]) then 0 else 1 + Spaces(s[1..])
  }

  /** The length of the longest prefix made of digits in the base. */
  function Span(s: string, base: nat): (n: nat)
    ensures n <= |s| && (n < |s| ==> DigitValue(s[n]) >= base)
    ensures forall i :: 0 <= i < n ==> DigitValue(s[i]) < base
  {
    if s == [] || DigitValue(s[0]) >= base then 0 else 1 + Span(s[1..], base)
  }

  /** The number the digits stand for. */
  function Value(s: string, base: nat): nat {
    if s == [] then 0 else Shifted(Value(s[..|s| - 1], base), base, DigitValue(s[|s| - 1]))
  }

  function Shifted(v: nat, base: nat, c: nat): nat {
    v * base + c
  }

  predicate HasHexPrefix(s: string) {
    |s| >= 2 && s[0] == '0' && (s[1] == 'x' || s[1] == 'X')
  }

  datatype Errno = Unchanged | Cleared | Erange

  /** The value returned, where endp is left, and what becomes of errno. */
  datatype Parsed = Panic | Parsed(val: int, end: nat, errno: Errno)

  const NO_CONVERSION := Parsed(0, 0, Unchanged)

  function BaseOf(s: string, base: int): int {
    if base == 0 then if HasHexPrefix(s) then 16 else 10 else base
  }

  function WithSign(negative: bool, v: int): int {
    if negative then -v else v
  }

  /** The digits that start at position q, with bounds on the magnitude; signed tells whether s[p] is a minus. */
  function Converted(s: string, q: nat, base: nat, negative: bool, most: int, least: int): Parsed
    requires q <= |s|
  {
    var n := Span(s[q..], base);
    var v := Value(s[q..q + n], base);
    if n == 0 then NO_CONVERSION
    else if v > most then Parsed(if negative then least else most, q + n, Erange)
    else Parsed(WithSign(negative, v), q + n, Cleared)
  }

  function SkipHex(s: string, q: nat, base: int): (q': nat)
    requires q <= |s|
    ensures q <= q' <= |s|
  {
    if base == 16 && HasHexPrefix(s[q..]) then q + 2 else q
  }

  /** myatosq: what the characters mean. */
  function SignedMeaning(s: string, base: int): Parsed {
    if s == [] then Panic
    else
      var p := Spaces(s);
      if p == |s| then NO_CONVERSION
      else
        var b := BaseOf(s[p..], base);
        if b <= 1 || b > 36 then Panic
        else
          var q := if s[p] == '-' || s[p] == '+' then p + 1 else p;
          Converted(s, SkipHex(s, q, b), b, s[p] == '-', LL_MAX, LL_MIN)
  }

  /** myatoq: what the characters mean. */
  function UnsignedMeaning(s: string, base: int): Parsed {
    if s == [] then Panic
    else
      var p := Spaces(s);
      if p == |s| then NO_CONVERSION
      else
        var b := BaseOf(s[p..], base);
        if b <= 1 || b > 36 then Panic
        else Converted(s, SkipHex(s, p, b), b, false, ULL_MAX, ULL_MAX)
  }

  lemma {:induction false} SpacesExactly(s: string, p: nat)
    requires p <= |s| && (forall i :: 0 <= i < p ==> IsSpace(s[i])) && (p < |s| ==> !IsSpace(s[p]))
    ensures Spaces(s) == p
  {
  }

  lemma {:induction false} SpanExactly(s: string, base: nat, n: nat)
    requires n <= |s| && (forall i :: 0 <= i < n ==> DigitValue(s[i]) < base) && (n < |s| ==> DigitValue(s[n]) >= base)
    ensures Span(s, base) == n
  {
  }

  /** One more digit: the cutoff test is exactly the test that the new value exceeds the bound. */
  lemma {:induction false} Cutoff(i: nat, c: nat, base: nat, most: nat)
    requires base > 0 && c < base
    ensures i * base + c > most <==> i > most / base || (i == most / base && c > most % base)
  {
    var q, r := most / base, most % base;
    assert most == q * base + r;
    if i > q {
      MultipleOutside(i - q, base);
      assert (i - q) * base == i * base - q * base;
    } else if i < q {
      MultipleOutside(q - i, base);
      assert (q - i) * base == q * base - i * base;
    }
  }

  /** v is the value so far, i what has been accumulated of it. */
  lemma {:induction false} AccumulateStep(v: nat, i: nat, overflow: bool, base: nat, c: nat, most: nat)
    requires base > 1 && c < base && (overflow <==> v > most) && (!overflow ==> i == v)
    ensures Shifted(v, base, c) > most <==> overflow || i > most / base || (i == most / base && c > most % base)
  {
    if overflow {
      assert v * base >= v;
    } else {
      Cutoff(i, c, base, most);
    }
  }

  lemma {:induction false} ValueNext(s: string, k: nat, base: nat)
    requires k < |s|
    ensures Value(s[..k + 1], base) == Shifted(Value(s[..k], base), base, DigitValue(s[k]))
  {
    assert s[..k + 1][..k] == s[..k];
  }

  /** The accumulation loop: never a value above the bound, and overflow is noticed exactly when there would be one. */
  method Accumulate(s: string, base: nat, most: nat) returns (n: nat, i: nat, overflow: bool)
    requires 1 < base <= 36
    ensures n == Span(s, base) && (overflow <==> Value(s[..n], base) > most) && (!overflow ==> i == Value(s[..n], base))
  {
    hide Value;
    hide DigitValue;
    hide Shifted;
    var cutoff, cutlim := most / base, most % base;
    n, i, overflow := 0, 0, false;
    ValueNone(s, base);
    while n < |s|
      invariant n <= |s| && (forall j :: 0 <= j < n ==> DigitValue(s[j]) < base)
      invariant (overflow <==> Value(s[..n], base) > most) && (!overflow ==> i == Value(s[..n], base))
    {
      var c := DigitValue(s[n]);
      if c >= base {
        SpanExactly(s, base, n);
        return;
      }
      ValueNext(s, n, base);
      AccumulateStep(Value(s[..n], base), i, overflow, base, c, most);
      if i > cutoff || (i == cutoff && c > cutlim) {
        overflow := true;
      } else {
        i := Shifted(i, base, c);
      }
      n := n + 1;
    }
    SpanExactly(s, base, n);
  }

  lemma {:induction false} ValueNone(s: string, base: nat)
    ensures Value(s[..0], base) == 0
  {
  }

  method SkipSpace(s: string) returns (p: nat)
    ensures p == Spaces(s)
  {
    p := 0;
    while p < |s| && IsSpace(s[p])
      invariant p <= |s| && forall i :: 0 <= i < p ==> IsSpace(s[i])
    {
      p := p + 1;
    }
    SpacesExactly(s, p);
  }

  /** The end of both parsers: the digits from q on, the end pointer and errno. */
  method Convert(s: string, q: nat, base: nat, negative: bool, most: int, least: int) returns (r: Parsed)
    requires q <= |s| && 1 < base <= 36 && most >= 0
    ensures r == Converted(s, q, base, negative, most, least)
  {
    hide Value;
    hide Span;
    var n, i, overflow := Accumulate(s[q..], base, most);
    SpanBound(s[q..], base);
    assert s[q..][..n] == s[q..q + n];
    if n == 0 { return NO_CONVERSION; }
    if overflow {
      r := Parsed(if negative then least else most, q + n, Erange);
    } else {
      r := Parsed(WithSign(negative, i), q + n, Cleared);
    }
  }

  /** myatosq */
  method ParseSigned(s: string, base: int) returns (r: Parsed)
    ensures r == SignedMeaning(s, base)
  {
    hide Spaces;
    hide Converted;
    hide SkipHex;
    hide BaseOf;
    SpacesBound(s);
    if |s| == 0 { return Panic; }
    var p := SkipSpace(s);
    if p == |s| { return NO_CONVERSION; }
    var b := BaseOf(s[p..], base);
    if b <= 1 || b > 36 { return Panic; }
    var negative, q := false, p;
    if s[q] == '-' {
      negative := true;
      q := q + 1;
    } else if s[q] == '+' {
      q := q + 1;
    }
    SkipHexBound(s, q, b);
    r := Convert(s, SkipHex(s, q, b), b, negative, LL_MAX, LL_MIN);
  }

  /** myatoq */
  method ParseUnsigned(s: string, base: int) returns (r: Parsed)
    ensures r == UnsignedMeaning(s, base)
  {
    hide Spaces;
    hide Converted;
    hide SkipHex;
    hide BaseOf;
    SpacesBound(s);
    if |s| == 0 { return Panic; }
    var p := SkipSpace(s);
    if p == |s| { return NO_CONVERSION; }
    var b := BaseOf(s[p..], base);
    if b <= 1 || b > 36 { return Panic; }
    SkipHexBound(s, p, b);
    r := Convert(s, SkipHex(s, p, b), b, false, ULL_MAX, ULL_MAX);
  }

  lemma {:induction false} SkipHexBound(s: string, q: nat, base: int)
    requires q <= |s|
    ensures q <= SkipHex(s, q, base) <= |s|
  {
  }

  lemma {:induction false} SpacesBound(s: string)
    ensures Spaces(s) <= |s|
  {
  }

  lemma {:induction false} SpanBound(s: string, base: nat)
    ensures Span(s, base) <= |s|
  {
  }

  // ----- the round trip

  lemma {:induction false} DigitsValue(n: nat)
    ensures Value(Digits(n), 10) == n
  {
    if n > 9 {
      DigitsValue(n / 10);
      assert Digits(n)[..|Digits(n)| - 1] == Digits(n / 10);
    } else {
      assert Digits(n)[..0] == [];
    }
  }

  /** Zeroes in front change nothing. */
  lemma {:induction false} LeadingZeroes(k: nat, s: string)
    ensures Value(Fill('0', k) + s, 10) == Value(s, 10)
  {
    if s != [] {
      LeadingZeroes(k, s[..|s| - 1]);
      assert (Fill('0', k) + s)[..k + |s| - 1] == Fill('0', k) + s[..|s| - 1];
    } else if k > 0 {
      LeadingZeroes(k - 1, []);
      assert (Fill('0', k) + [])[..k - 1] == Fill('0', k - 1) + [];
    }
  }

  lemma {:induction false} DigitsShape(n: nat)
    ensures |Digits(n)| > 0 && forall i :: 0 <= i < |Digits(n)| ==> '0' <= Digits(n)[i] <= '9'
  {
  }

  /** A printed number is blanks, a sign and digits, in this order. */
  lemma {:induction false} PrintedShape(v: int, width: nat, padZero: bool) returns (blanks: nat, digits: string)
    ensures var sign := if v < 0 then "-" else "";
            && Printed(v, width, padZero) == Fill(' ', blanks) + sign + digits
            && |digits| > 0 && (forall i :: 0 <= i < |digits| ==> '0' <= digits[i] <= '9')
            && Value(digits, 10) == if v < 0 then -v else v
  {
    hide Value;
    hide Digits;
    DigitsShape(if v < 0 then -v else v);
    var sign := if v < 0 then "-" else "";
    var u := if v < 0 then -v else v;
    var body := Digits(u);
    var k := |sign| + |body|;
    DigitsValue(u);
    if width > k && padZero {
      blanks, digits := 0, Fill('0', width - k) + body;
      LeadingZeroes(width - k, body);
    } else {
      blanks, digits := if width > k then width - k else 0, body;
    }
    assert Fill(' ', 0) == [];
  }

  /** All of a string of decimal digits is converted. */
  lemma {:induction false} DigitsConvert(s: string, q: nat, negative: bool, most: int, least: int)
    requires q < |s| && forall i :: q <= i < |s| ==> '0' <= s[i] <= '9'
    ensures Converted(s, q, 10, negative, most, least)
            == var v := Value(s[q..], 10);
               if v > most then Parsed(if negative then least else most, |s|, Erange)
               else Parsed(WithSign(negative, v), |s|, Cleared)
  {
    hide Value;
    var d := s[q..];
    assert forall i :: 0 <= i < |d| ==> d[i] == s[q + i];
    SpanExactly(d, 10, |d|);
    assert s[q..q + |d|] == d;
  }

  /** Every 64-bit signed value, printed with any padding, parses back to itself and uses up the whole string;
      errno is ERANGE exactly for the least value, whose magnitude is out of range. */
  lemma {:induction false} SignedRoundTrip(v: int, width: nat, padZero: bool, base: int)
    requires LL_MIN <= v <= LL_MAX && (base == 0 || base == 10)
    ensures var s := Printed(v, width, padZero);
            SignedMeaning(s, base) == Parsed(v, |s|, if v == LL_MIN then Erange else Cleared)
  {
    hide Printed;
    hide Value;
    hide Span;
    hide Spaces;
    hide Converted;
    var s := Printed(v, width, padZero);
    var blanks, digits := PrintedShape(v, width, padZero);
    var q := if v < 0 then blanks + 1 else blanks;
    assert s[q..] == digits;
    assert forall i :: q <= i < |s| ==> s[i] == digits[i - q];
    SpacesExactly(s, blanks);
    DigitsConvert(s, q, v < 0, LL_MAX, LL_MIN);
  }

  /** Likewise for every unsigned value, without exception. */
  lemma {:induction false} UnsignedRoundTrip(v: int, width: nat, padZero: bool, base: int)
    requires 0 <= v <= ULL_MAX && (base == 0 || base == 10)
    ensures var s := Printed(v, width, padZero);
            UnsignedMeaning(s, base) == Parsed(v, |s|, Cleared)
  {
    hide Printed;
    hide Value;
    hide Span;
    hide Spaces;
    hide Converted;
    var s := Printed(v, width, padZero);
    var blanks, digits := PrintedShape(v, width, padZero);
    assert s[blanks..] == digits;
    assert forall i :: blanks <= i < |s| ==> s[i] == digits[i - blanks];
    SpacesExactly(s, blanks);
    DigitsConvert(s, blanks, false, ULL_MAX, ULL_MAX);
  }
}
