/** What the number parsers accept: blanks, a sign, a hexadecimal prefix and digits, told by the characters
    themselves; and the exact layout of a printed field. */
module NumeralText {
  import opened IntegerText

  const SMALL: string := "0123456789abcdefghijklmnopqrstuvwxyz"
  const CAPITAL: string := "0123456789ABCDEFGHIJKLMNOPQRSTUVWXYZ"

  lemma {:induction false} Alphabets()
    ensures |SMALL| == |CAPITAL| == 36
  {
  }

  /** c is the digit d, in either case. */
  predicate IsDigit(c: char, d: nat) {
    d < |SMALL| && d < |CAPITAL| && (c == SMALL[d] || c == CAPITAL[d])
  }

  /** t spells the digits ds in the base. */
  ghost predicate Spells(t: string, ds: seq<nat>, base: nat) {
    |t| == |ds| && forall i :: 0 <= i < |t| ==> ds[i] < base && IsDigit(t[i], ds[i])
  }

  /** The number with these digits, most significant first. */
  function Number(ds: seq<nat>, base: nat): nat {
    if ds == [] then 0 else Shifted(Number(ds[..|ds| - 1], base), base, ds[|ds| - 1])
  }

  lemma {:induction false} LetterAt(d: nat)
    requires d < 36
    ensures d < |SMALL| == |CAPITAL|
    ensures SMALL[d] as int == if d < 10 then 48 + d else 87 + d
    ensures CAPITAL[d] as int == if d < 10 then 48 + d else 55 + d
  {
  }

  lemma {:induction false} DigitMeans(c: char, d: nat)
    requires IsDigit(c, d)
    ensures DigitValue(c) == d
  {
    Alphabets();
    LetterAt(d);
  }

  /** and nothing else has a value below the base. */
  lemma {:induction false} ValueMeansDigit(c: char)
    requires DigitValue(c) < 36
    ensures IsDigit(c, DigitValue(c))
  {
    hide SMALL;
    hide CAPITAL;
    LetterAt(DigitValue(c));
    CharOf(c, DigitValue(c));
  }

  lemma {:induction false} CharOf(c: char, d: nat)
    requires DigitValue(c) == d < 36
    ensures c as int == if d < 10 then 48 + d else if c <= 'Z' then 55 + d else 87 + d
  {
  }

  lemma {:induction false} SpelledValue(t: string, ds: seq<nat>, base: nat)
    requires Spells(t, ds, base)
    ensures Value(t, base) == Number(ds, base) && forall i :: 0 <= i < |t| ==> DigitValue(t[i]) < base
  {
    hide IsDigit;
    hide DigitValue;
    hide Shifted;
    if t != [] {
      var n := |t| - 1;
      SpelledValue(t[..n], ds[..n], base);
      DigitMeans(t[n], ds[n]);
    }
  }

  /** No further digit follows. */
  ghost predicate Stops(rest: string, base: nat) {
    rest == [] || forall d: nat :: d < base ==> !IsDigit(rest[0], d)
  }

  lemma {:induction false} StopsThere(rest: string, base: nat)
    requires Stops(rest, base) && base <= 36
    ensures rest != [] ==> DigitValue(rest[0]) >= base
  {
    hide IsDigit;
    hide DigitValue;
    if rest != [] && DigitValue(rest[0]) < base { ValueMeansDigit(rest[0]); }
  }

  lemma {:induction false} ConvertsSpelled(s: string, q: nat, base: nat, t: string, ds: seq<nat>, rest: string,
                                           negative: bool, most: int, least: int)
    requires q <= |s| && s[q..] == t + rest && t != [] && Spells(t, ds, base) && Stops(rest, base) && base <= 36
    ensures Converted(s, q, base, negative, most, least) ==
            var v: int := Number(ds, base);
            if v > most then Parsed(if negative then least else most, q + |t|, Erange)
            else Parsed(if negative then -v else v, q + |t|, Cleared)
  {
    hide Value;
    hide DigitValue;
    hide Number;
    hide Spells;
    SpelledValue(t, ds, base);
    StopsThere(rest, base);
    var d := s[q..];
    assert d[..|t|] == t && (|t| < |d| ==> d[|t|] == rest[0]);
    SpanExactly(d, base, |t|);
    assert s[q..q + |t|] == t;
  }

  /** A space, tab, newline, vertical tab, form feed or carriage return. */
  predicate IsBlank(c: char) {
    c as int == 32 || 9 <= c as int <= 13
  }

  ghost predicate Blank(ws: string) {
    forall i :: 0 <= i < |ws| ==> IsBlank(ws[i])
  }

  predicate IsSign(sign: string) {
    sign == "" || sign == "-" || sign == "+"
  }

  predicate IsPrefix(prefix: string) {
    prefix == "" || prefix == "0x" || prefix == "0X"
  }

  /** t with what follows it could be taken for a prefix. */
  predicate LooksHex(t: string, rest: string) {
    t == "0" && rest != [] && (rest[0] == 'x' || rest[0] == 'X')
  }

  /** The prefix is read as one and not as digits, and the digits are not read as a prefix. */
  predicate PrefixOk(prefix: string, t: string, rest: string, base: nat) {
    if prefix == [] then base == 16 ==> !LooksHex(t, rest) else base == 16 && IsPrefix(prefix)
  }

  /** base is b, or 0 where b is 16 after a prefix that no sign precedes, and 10 elsewhere. */
  predicate BaseOk(base: int, b: nat, sign: string, prefix: string, t: string, rest: string) {
    if base == 0 then
      if prefix != [] then b == 16 && sign == []
      else b == 10 && (sign == [] ==> !LooksHex(t, rest))
    else base == b
  }

  lemma {:induction false} SpelledFirst(t: string, ds: seq<nat>, base: nat, i: nat)
    requires Spells(t, ds, base) && i < |t|
    ensures !IsBlank(t[i]) && t[i] != '-' && t[i] != '+' && (base <= 16 ==> t[i] != 'x' && t[i] != 'X')
  {
    Alphabets();
    LetterAt(ds[i]);
  }

  lemma {:induction false} BlankIsSpace(c: char)
    ensures IsSpace(c) <==> IsBlank(c)
  {
  }

  lemma {:induction false} SignChar(sign: string)
    requires IsSign(sign)
    ensures |sign| <= 1 && (sign != [] ==> (sign[0] == '-' || sign[0] == '+') && (sign[0] == '-' <==> sign == "-"))
    ensures sign == [] ==> sign != "-"
  {
  }

  lemma {:induction false} PrefixChars(prefix: string)
    requires IsPrefix(prefix) && prefix != []
    ensures |prefix| == 2 && prefix[0] == '0' && (prefix[1] == 'x' || prefix[1] == 'X')
  {
  }

  lemma {:induction false} PrefixCases(prefix: string, t: string, rest: string, b: nat)
    requires PrefixOk(prefix, t, rest, b)
    ensures IsPrefix(prefix) && (prefix != [] ==> b == 16)
    ensures prefix == [] && b == 16 ==> !LooksHex(t, rest)
  {
  }

  /** A prefix is found where there is one, and only there. */
  lemma {:induction false} HexHere(w: string, x: string, prefix: string, t: string, ds: seq<nat>, rest: string,
                                   base: nat)
    requires w == prefix + x && x == t + rest && t != [] && Spells(t, ds, base) && base <= 16
    requires IsPrefix(prefix) && (prefix == [] ==> !LooksHex(t, rest))
    ensures HasHexPrefix(w) <==> prefix != []
  {
    hide Spells;
    hide IsDigit;
    hide IsPrefix;
    if prefix == [] {
      assert w == x;
      SpelledFirst(t, ds, base, 0);
      if |t| > 1 { SpelledFirst(t, ds, base, 1); }
      assert |t| == 1 ==> t == [w[0]] && w[1..] == rest;
    } else {
      PrefixChars(prefix);
      assert w[0] == prefix[0] && w[1] == prefix[1];
    }
  }

  lemma {:induction false} BlanksEnd(s: string, ws: string, u: string)
    requires s == ws + u && Blank(ws) && u != [] && !IsBlank(u[0])
    ensures Spaces(s) == |ws| && s[|ws|..] == u
  {
    hide IsSpace;
    hide IsBlank;
    hide Spaces;
    forall i | 0 <= i < |ws| ensures IsSpace(s[i]) {
      assert s[i] == ws[i];
      BlankIsSpace(s[i]);
    }
    assert s[|ws|] == u[0];
    BlankIsSpace(u[0]);
    SpacesExactly(s, |ws|);
  }

  lemma {:induction false} NotBlank(c: char)
    requires c == '-' || c == '+' || c == '0'
    ensures !IsBlank(c)
  {
  }

  /** The first character after the blanks. */
  lemma {:induction false} FirstChar(u: string, w: string, x: string, sign: string, prefix: string, t: string,
                                     ds: seq<nat>, rest: string, base: nat)
    requires u == sign + w && w == prefix + x && x == t + rest
    requires IsSign(sign) && IsPrefix(prefix) && t != [] && Spells(t, ds, base)
    ensures u != [] && !IsBlank(u[0]) && (u[0] == '-' <==> sign == "-")
    ensures (u[0] == '-' || u[0] == '+') <==> sign != []
  {
    hide Spells;
    hide IsSign;
    hide IsPrefix;
    hide IsBlank;
    SignChar(sign);
    if sign != [] {
      assert u[0] == sign[0];
      NotBlank(u[0]);
    } else if prefix != [] {
      PrefixChars(prefix);
      assert u[0] == prefix[0];
      NotBlank(u[0]);
    } else {
      SpelledFirst(t, ds, base, 0);
      assert u[0] == t[0];
    }
  }

  lemma {:induction false} SignIsNoPrefix(u: string)
    requires u != [] && (u[0] == '-' || u[0] == '+')
    ensures !HasHexPrefix(u)
  {
  }

  /** The base in force. */
  lemma {:induction false} BaseHere(u: string, w: string, x: string, sign: string, prefix: string, t: string,
                                    ds: seq<nat>, rest: string, base: int, b: nat)
    requires u == sign + w && w == prefix + x && x == t + rest
    requires IsSign(sign) && IsPrefix(prefix) && t != [] && Spells(t, ds, b)
    requires BaseOk(base, b, sign, prefix, t, rest)
    ensures BaseOf(u, base) == b
  {
    hide Spells;
    hide HasHexPrefix;
    hide IsSign;
    hide IsPrefix;
    hide IsBlank;
    if base == 0 {
      if sign == [] {
        assert u == w;
        HexHere(w, x, prefix, t, ds, rest, b);
      } else {
        FirstChar(u, w, x, sign, prefix, t, ds, rest, b);
        SignIsNoPrefix(u);
      }
    }
  }

  /** Where the digits start. */
  lemma {:induction false} DigitsStart(s: string, q: nat, w: string, x: string, prefix: string, t: string, ds: seq<nat>,
                                       rest: string, b: nat)
    requires q <= |s| && s[q..] == w && w == prefix + x && x == t + rest && t != [] && Spells(t, ds, b)
    requires PrefixOk(prefix, t, rest, b)
    ensures SkipHex(s, q, b) == q + |prefix|
  {
    hide Spells;
    hide HasHexPrefix;
    hide PrefixOk;
    hide IsPrefix;
    hide LooksHex;
    PrefixCases(prefix, t, rest, b);
    if b == 16 { HexHere(w, x, prefix, t, ds, rest, b); }
    if prefix != [] { PrefixChars(prefix); }
  }

  lemma {:induction false} Joined(ws: string, sign: string, prefix: string, t: string, rest: string)
    ensures ws + sign + prefix + t + rest == ws + (sign + (prefix + (t + rest)))
  {
    var x := t + rest;
    assert prefix + x == prefix + t + rest;
  }

  lemma {:induction false} DropMore(s: string, p: nat, u: string, a: string, w: string)
    requires p <= |s| && s[p..] == u && u == a + w
    ensures p + |a| <= |s| && s[p + |a|..] == w
  {
    assert s[p + |a|..] == s[p..][|a|..];
  }

  /** What is found before the digits. */
  lemma {:induction false} NumeralStart(s: string, u: string, w: string, x: string, ws: string, sign: string,
                                        prefix: string, t: string, ds: seq<nat>, rest: string, base: int, b: nat)
    requires s == ws + u && u == sign + w && w == prefix + x && x == t + rest
    requires Blank(ws) && IsSign(sign) && IsPrefix(prefix) && t != [] && Spells(t, ds, b)
    requires BaseOk(base, b, sign, prefix, t, rest)
    ensures var p := |ws|;
            && Spaces(s) == p < |s| && s[p..] == u && BaseOf(u, base) == b && (s[p] == '-' <==> sign == "-")
            && ((s[p] == '-' || s[p] == '+') <==> sign != []) && |sign| == if sign == [] then 0 else 1
  {
    hide Spells;
    hide Blank;
    hide IsSign;
    hide IsPrefix;
    hide BaseOk;
    hide BaseOf;
    hide Spaces;
    hide IsBlank;
    SignChar(sign);
    FirstChar(u, w, x, sign, prefix, t, ds, rest, b);
    BlanksEnd(s, ws, u);
    assert s[|ws|] == u[0];
    BaseHere(u, w, x, sign, prefix, t, ds, rest, base, b);
  }

  /** Where the digits are. */
  lemma {:induction false} NumeralDigits(s: string, p: nat, u: string, w: string, x: string, sign: string,
                                         prefix: string, t: string, ds: seq<nat>, rest: string, b: nat)
    requires p <= |s| && s[p..] == u && u == sign + w && w == prefix + x && x == t + rest
    requires t != [] && Spells(t, ds, b) && PrefixOk(prefix, t, rest, b)
    ensures p + |sign| + |prefix| <= |s| && s[p + |sign| + |prefix|..] == x
    ensures SkipHex(s, p + |sign|, b) == p + |sign| + |prefix|
  {
    hide Spells;
    hide PrefixOk;
    hide SkipHex;
    DropMore(s, p, u, sign, w);
    DigitsStart(s, p + |sign|, w, x, prefix, t, ds, rest, b);
    DropMore(s, p + |sign|, w, prefix, x);
  }

  lemma {:induction false} SignedAt(s: string, p: nat, base: int, b: nat)
    requires p < |s| && Spaces(s) == p && BaseOf(s[p..], base) == b && 2 <= b <= 36
    ensures var q := if s[p] == '-' || s[p] == '+' then p + 1 else p;
            SignedMeaning(s, base) == Converted(s, SkipHex(s, q, b), b, s[p] == '-', LL_MAX, LL_MIN)
  {
    hide Spaces;
    hide BaseOf;
    hide SkipHex;
    hide Converted;
  }

  lemma {:induction false} UnsignedAt(s: string, p: nat, base: int, b: nat)
    requires p < |s| && Spaces(s) == p && BaseOf(s[p..], base) == b && 2 <= b <= 36
    ensures UnsignedMeaning(s, base) == Converted(s, SkipHex(s, p, b), b, false, ULL_MAX, ULL_MAX)
  {
    hide Spaces;
    hide BaseOf;
    hide SkipHex;
    hide Converted;
  }

  lemma {:induction false} SignedParts(s: string, u: string, w: string, x: string, ws: string, sign: string,
                                       prefix: string, t: string, ds: seq<nat>, rest: string, base: int, b: nat)
    requires s == ws + u && u == sign + w && w == prefix + x && x == t + rest
    requires Blank(ws) && IsSign(sign) && t != [] && 2 <= b <= 36 && Spells(t, ds, b) && Stops(rest, b)
    requires PrefixOk(prefix, t, rest, b) && BaseOk(base, b, sign, prefix, t, rest)
    ensures var v: int, end := Number(ds, b), |ws| + |sign| + |prefix| + |t|;
            SignedMeaning(s, base) ==
            if v > LL_MAX then Parsed(if sign == "-" then LL_MIN else LL_MAX, end, Erange)
            else Parsed(if sign == "-" then -v else v, end, Cleared)
  {
    hide SignedMeaning;
    hide UnsignedMeaning;
    hide Spells;
    hide Stops;
    hide Blank;
    hide Number;
    hide PrefixOk;
    hide BaseOk;
    hide BaseOf;
    hide IsSign;
    hide IsPrefix;
    hide LooksHex;
    hide SkipHex;
    hide Converted;
    hide Spaces;
    PrefixCases(prefix, t, rest, b);
    NumeralStart(s, u, w, x, ws, sign, prefix, t, ds, rest, base, b);
    var p := |ws|;
    NumeralDigits(s, p, u, w, x, sign, prefix, t, ds, rest, b);
    ConvertsSpelled(s, p + |sign| + |prefix|, b, t, ds, rest, s[p] == '-', LL_MAX, LL_MIN);
    SignedAt(s, p, base, b);
  }

  /** A signed numeral: blanks, a sign, a prefix and digits, with whatever follows. The value is that of the digits
      unless they exceed the greatest 64-bit value; the least is only reached by overflow. */
  lemma {:induction false} SignedNumeral(ws: string, sign: string, prefix: string, t: string, ds: seq<nat>,
                                         rest: string, base: int, b: nat)
    requires Blank(ws) && IsSign(sign) && t != [] && 2 <= b <= 36 && Spells(t, ds, b) && Stops(rest, b)
    requires PrefixOk(prefix, t, rest, b) && BaseOk(base, b, sign, prefix, t, rest)
    ensures var v: int, end := Number(ds, b), |ws| + |sign| + |prefix| + |t|;
            SignedMeaning(ws + sign + prefix + t + rest, base) ==
            if v >= 0x8000_0000_0000_0000 then
              Parsed(if sign == "-" then -0x8000_0000_0000_0000 else 0x7fff_ffff_ffff_ffff, end, Erange)
            else Parsed(if sign == "-" then -v else v, end, Cleared)
  {
    hide SignedMeaning;
    hide UnsignedMeaning;
    hide Spells;
    hide Stops;
    hide Blank;
    hide Number;
    hide PrefixOk;
    hide BaseOk;
    hide BaseOf;
    hide IsSign;
    hide IsPrefix;
    hide LooksHex;
    hide SkipHex;
    hide Converted;
    hide Spaces;
    Joined(ws, sign, prefix, t, rest);
    var x := t + rest;
    var w := prefix + x;
    var u := sign + w;
    SignedParts(ws + u, u, w, x, ws, sign, prefix, t, ds, rest, base, b);
  }

  lemma {:induction false} NoSign()
    ensures IsSign("")
  {
  }

  lemma {:induction false} UnsignedParts(s: string, u: string, w: string, x: string, ws: string, prefix: string,
                                         t: string, ds: seq<nat>, rest: string, base: int, b: nat)
    requires s == ws + u && u == "" + w && w == prefix + x && x == t + rest
    requires Blank(ws) && t != [] && 2 <= b <= 36 && Spells(t, ds, b) && Stops(rest, b)
    requires PrefixOk(prefix, t, rest, b) && BaseOk(base, b, "", prefix, t, rest)
    ensures var v, end := Number(ds, b), |ws| + |prefix| + |t|;
            UnsignedMeaning(s, base) == if v > ULL_MAX then Parsed(ULL_MAX, end, Erange) else Parsed(v, end, Cleared)
  {
    hide SignedMeaning;
    hide UnsignedMeaning;
    hide Spells;
    hide Stops;
    hide Blank;
    hide Number;
    hide PrefixOk;
    hide BaseOk;
    hide BaseOf;
    hide IsSign;
    hide IsPrefix;
    hide LooksHex;
    hide SkipHex;
    hide Converted;
    hide Spaces;
    PrefixCases(prefix, t, rest, b);
    NoSign();
    NumeralStart(s, u, w, x, ws, "", prefix, t, ds, rest, base, b);
    var p := |ws|;
    NumeralDigits(s, p, u, w, x, "", prefix, t, ds, rest, b);
    ConvertsSpelled(s, p + |prefix|, b, t, ds, rest, false, ULL_MAX, ULL_MAX);
    UnsignedAt(s, p, base, b);
  }

  lemma {:induction false} JoinedUnsigned(ws: string, prefix: string, t: string, rest: string)
    ensures ws + prefix + t + rest == ws + ("" + (prefix + (t + rest)))
  {
    Joined(ws, "", prefix, t, rest);
    assert ws + "" == ws;
  }

  /** An unsigned numeral: no sign is read. */
  lemma {:induction false} UnsignedNumeral(ws: string, prefix: string, t: string, ds: seq<nat>,
                                           rest: string, base: int, b: nat)
    requires Blank(ws) && t != [] && 2 <= b <= 36 && Spells(t, ds, b) && Stops(rest, b)
    requires PrefixOk(prefix, t, rest, b) && BaseOk(base, b, "", prefix, t, rest)
    ensures var v, end := Number(ds, b), |ws| + |prefix| + |t|;
            UnsignedMeaning(ws + prefix + t + rest, base) ==
            if v >= 0x1_0000_0000_0000_0000 then Parsed(0xffff_ffff_ffff_ffff, end, Erange)
            else Parsed(v, end, Cleared)
  {
    hide SignedMeaning;
    hide UnsignedMeaning;
    hide Spells;
    hide Stops;
    hide Blank;
    hide Number;
    hide PrefixOk;
    hide BaseOk;
    hide BaseOf;
    hide IsSign;
    hide IsPrefix;
    hide LooksHex;
    hide SkipHex;
    hide Converted;
    hide Spaces;
    JoinedUnsigned(ws, prefix, t, rest);
    var x := t + rest;
    var w := prefix + x;
    var u := "" + w;
    UnsignedParts(ws + u, u, w, x, ws, prefix, t, ds, rest, base, b);
  }

  lemma {:induction false} NoDigits(s: string, q: nat, b: nat, negative: bool, most: int, least: int)
    requires q <= |s| && b <= 36 && Stops(s[q..], b)
    ensures Converted(s, q, b, negative, most, least) == Parsed(0, 0, Unchanged)
  {
    hide Value;
    hide DigitValue;
    hide Stops;
    StopsThere(s[q..], b);
    SpanExactly(s[q..], b, 0);
  }

  lemma {:induction false} BlanksOnly(ws: string)
    requires Blank(ws)
    ensures Spaces(ws) == |ws|
  {
    hide IsSpace;
    hide IsBlank;
    hide Spaces;
    forall i | 0 <= i < |ws| ensures IsSpace(ws[i]) { BlankIsSpace(ws[i]); }
    SpacesExactly(ws, |ws|);
  }

  /** A zero is a digit in every base. */
  lemma {:induction false} NoPrefixThere(rest: string, b: nat)
    requires 2 <= b <= 36 && Stops(rest, b)
    ensures !HasHexPrefix(rest)
  {
    assert IsDigit('0', 0);
  }

  lemma {:induction false} NoPrefixHere(u: string, sign: string, rest: string, b: nat)
    requires u == sign + rest && IsSign(sign) && 2 <= b <= 36 && Stops(rest, b)
    ensures !HasHexPrefix(u)
  {
    hide Stops;
    NoPrefixThere(rest, b);
    if sign == [] {
      assert u == rest;
    } else {
      SignChar(sign);
      assert u[0] == sign[0];
    }
  }

  lemma {:induction false} NothingThere(s: string, u: string, ws: string, sign: string, rest: string, base: int, b: nat)
    requires s == ws + u && u == sign + rest && u != [] && !IsBlank(u[0]) && Blank(ws) && IsSign(sign)
    requires b == (if base == 0 then 10 else base) && 2 <= b <= 36 && Stops(rest, b)
    requires sign == [] ==> u[0] != '-' && u[0] != '+'
    ensures SignedMeaning(s, base) == Parsed(0, 0, Unchanged)
  {
    hide SignedMeaning;
    hide HasHexPrefix;
    hide Stops;
    hide Blank;
    hide Spaces;
    hide Converted;
    hide IsBlank;
    hide IsSign;
    SignChar(sign);
    BlanksEnd(s, ws, u);
    var p := |ws|;
    assert s[p] == u[0];
    assert sign != [] ==> u[0] == sign[0];
    DropMore(s, p, u, sign, rest);
    NoPrefixHere(u, sign, rest, b);
    NoPrefixThere(rest, b);
    NoDigits(s, p + |sign|, b, s[p] == '-', LL_MAX, LL_MIN);
    SignedAt(s, p, base, b);
  }

  /** Texts without a number: an empty one is a panic; blanks alone, and a character that is no digit after the blanks
      and the sign, give 0 with the end at the start and errno as it was. */
  lemma {:induction false} NothingToConvert(ws: string, sign: string, rest: string, base: int)
    requires Blank(ws) && IsSign(sign) && (sign + rest != [] ==> !IsBlank((sign + rest)[0]))
    requires (base == 0 || 2 <= base <= 36) && Stops(rest, if base == 0 then 10 else base)
    requires sign == [] ==> rest == [] || (rest[0] != '-' && rest[0] != '+')
    ensures SignedMeaning(ws + (sign + rest), base) ==
            if ws == [] && sign == [] && rest == [] then Panic else Parsed(0, 0, Unchanged)
  {
    hide Stops;
    hide Blank;
    hide Spaces;
    hide Converted;
    hide IsBlank;
    hide IsSign;
    var u := sign + rest;
    if u == [] {
      assert ws + u == ws;
      BlanksOnly(ws);
    } else {
      assert sign == [] ==> u == rest;
      NothingThere(ws + u, u, ws, sign, rest, base, if base == 0 then 10 else base);
    }
  }

  lemma {:induction false} NeverPanics(s: string, q: nat, b: nat, negative: bool, most: int, least: int)
    requires q <= |s|
    ensures Converted(s, q, b, negative, most, least) != Panic
  {
    hide Value;
    hide Span;
  }

  /** A text that is not all blanks panics exactly in a base out of range. */
  lemma {:induction false} PanicsExactly(ws: string, u: string, base: int)
    requires Blank(ws) && u != [] && !IsBlank(u[0])
    ensures SignedMeaning(ws + u, base) == Panic <==> base != 0 && !(2 <= base <= 36)
    ensures UnsignedMeaning(ws + u, base) == Panic <==> base != 0 && !(2 <= base <= 36)
  {
    hide Spaces;
    hide Converted;
    hide SkipHex;
    hide Blank;
    hide IsBlank;
    var s, p := ws + u, |ws|;
    BlanksEnd(s, ws, u);
    var b := BaseOf(u, base);
    if 2 <= b <= 36 {
      var q := if s[p] == '-' || s[p] == '+' then p + 1 else p;
      NeverPanics(s, SkipHex(s, q, b), b, s[p] == '-', LL_MAX, LL_MIN);
      NeverPanics(s, SkipHex(s, p, b), b, false, ULL_MAX, ULL_MAX);
    }
  }

  // ----- printed fields

  lemma {:induction false} DigitsSpell(n: nat) returns (ds: seq<nat>)
    ensures Spells(Digits(n), ds, 10) && Number(ds, 10) == n
  {
    hide IsDigit;
    hide Digits;
    hide DigitValue;
    hide Value;
    hide Number;
    var t := Digits(n);
    ds := seq(|t|, i requires 0 <= i < |t| => DigitValue(t[i]));
    DigitsDecimal(n);
    forall i | 0 <= i < |t| ensures ds[i] < 10 && IsDigit(t[i], ds[i]) { ValueMeansDigit(t[i]); }
    SpelledValue(t, ds, 10);
    DigitsValue(n);
  }

  lemma {:induction false} DigitsDecimal(n: nat)
    ensures |Digits(n)| > 0 && forall i :: 0 <= i < |Digits(n)| ==> DigitValue(Digits(n)[i]) < 10
  {
    hide Digits;
  }

  lemma {:induction false} NoLeadingZero(n: nat)
    requires n > 0
    ensures Digits(n)[0] != '0'
  {
    if n > 9 { NoLeadingZero(n / 10); }
  }

  /** A printed field: the sign, the digits of the magnitude without a leading zero, and filling up to the width,
      blanks in front of the sign or zeroes behind it. */
  lemma {:induction false} PrintedField(v: int, width: nat, padZero: bool) returns (t: string, ds: seq<nat>, k: nat)
    ensures Spells(t, ds, 10) && Number(ds, 10) == (if v < 0 then -v else v) && t != []
    ensures v != 0 ==> t[0] != '0'
    ensures v == 0 ==> t == "0"
    ensures var sign := if v < 0 then "-" else "";
            var plain := |sign| + |t|;
            && (k == if width <= plain then 0 else width - plain)
            && Printed(v, width, padZero) == if padZero then sign + Fill('0', k) + t else Fill(' ', k) + sign + t
  {
    hide Spells;
    hide Number;
    hide Digits;
    var n := if v < 0 then -v else v;
    t := Digits(n);
    ds := DigitsSpell(n);
    DigitsDecimal(n);
    if n > 0 { NoLeadingZero(n); } else { DigitsOne(0); }
    var sign := if v < 0 then "-" else "";
    k := if width <= |sign| + |t| then 0 else width - |sign| - |t|;
    assert Fill('0', 0) == [] && Fill(' ', 0) == [];
    assert sign + [] + t == sign + t;
    assert [] + sign + t == sign + t;
  }
}
