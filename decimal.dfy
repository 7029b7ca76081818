/**
 * Exact rational numbers standing for the Java `double` entitlement ratio, the floor of a
 * product (`(long) Math.floor(held * perShare)`), and the decimal literals that
 * `Double.parseDouble` turns into such ratios.
 */
module Decimal {
  import opened Wrappers

  type Pos = n: int | n > 0 witness 1

  /** The rational number num / den. */
  datatype Ratio = Ratio(num: int, den: Pos)

  /** floor(n * q), computed exactly. */
  function FloorTimes(n: int, q: Ratio): (r: int)
    ensures r * q.den <= n * q.num < (r + 1) * q.den
  {
    (n * q.num) / q.den
  }

  /** A non-negative ratio applied to a non-negative count grants between 0 and the exact product. */
  lemma FloorTimesBounds(n: int, q: Ratio)
    requires n >= 0 && q.num >= 0
    ensures 0 <= FloorTimes(n, q)
    ensures FloorTimes(n, q) * q.den <= n * q.num
  {
  }

  predicate IsDigit(c: char)
  {
    '0' <= c <= '9'
  }

  predicate AllDigits(s: string)
  {
    forall i :: 0 <= i < |s| ==> IsDigit(s[i])
  }

  /** The value of a string of decimal digits, most significant first. */
  function DigitsValue(s: string): nat
    requires AllDigits(s)
  {
    if s == [] then 0 else DigitsValue(s[..|s| - 1]) * 10 + (s[|s| - 1] as int - '0' as int)
  }

  function Pow10(k: nat): Pos
  {
    if k == 0 then 1 else 10 * Pow10(k - 1)
  }

  /** Index of the first '.', or |s| when there is none. */
  function IndexOfDot(s: string): (i: nat)
    ensures i <= |s|
    ensures forall j :: 0 <= j < i ==> s[j] != '.'
    ensures i < |s| ==> s[i] == '.'
  {
    if s == [] || s[0] == '.' then 0 else 1 + IndexOfDot(s[1..])
  }

  /** Digits with at most one '.', and at least one digit: `12`, `12.5`, `.5`, `12.`. */
  function ParseUnsigned(s: string): Option<Ratio>
  {
    var dot := IndexOfDot(s);
    var whole := s[..dot];
    var fraction := if dot < |s| then s[dot + 1..] else "";
    if AllDigits(whole) && AllDigits(fraction) && |whole| + |fraction| > 0
    then Some(Ratio(DigitsValue(whole + fraction), Pow10(|fraction|)))
    else None
  }

  /** `Double.parseDouble` on plain decimal literals: an optional sign, then an unsigned literal. */
  function ParseDecimal(s: string): Option<Ratio>
  {
    if s != [] && (s[0] == '+' || s[0] == '-') then
      match ParseUnsigned(s[1..])
      case None => None
      case Some(q) => Some(if s[0] == '-' then Ratio(-q.num, q.den) else q)
    else ParseUnsigned(s)
  }

  function CountDots(s: string): nat
  {
    if s == [] then 0 else CountDots(s[1..]) + (if s[0] == '.' then 1 else 0)
  }

  /** The literal grammar `[+-]? [0-9]* ('.' [0-9]*)?` with at least one digit, stated on characters. */
  predicate IsDecimalLiteral(s: string)
  {
    IsUnsignedLiteral(if s != [] && (s[0] == '+' || s[0] == '-') then s[1..] else s)
  }

  lemma {:induction false} CountDotsSplit(s: string, k: nat)
    requires k <= |s|
    ensures CountDots(s) == CountDots(s[..k]) + CountDots(s[k..])
    decreases k
  {
    if k > 0 {
      CountDotsSplit(s[1..], k - 1);
      assert s[1..][..k - 1] == s[..k][1..];
      assert s[1..][k - 1..] == s[k..];
    } else {
      assert s[..k] == [];
      assert s[k..] == s;
    }
  }

  /** The grammar of an unsigned literal, on characters: digits and dots, at most one dot, some digit. */
  predicate IsUnsignedLiteral(s: string)
  {
    && (forall i :: 0 <= i < |s| ==> IsDigit(s[i]) || s[i] == '.')
    && CountDots(s) <= 1
    && (exists i :: 0 <= i < |s| && IsDigit(s[i]))
  }

  lemma {:induction false} CountDotsZero(s: string)
    ensures CountDots(s) == 0 <==> forall i :: 0 <= i < |s| ==> s[i] != '.'
    decreases |s|
  {
    if s != [] {
      CountDotsZero(s[1..]);
      assert forall i :: 1 <= i < |s| ==> s[i] == s[1..][i - 1];
    }
  }

  /** Where the dot splits a string, and how many dots each side holds. */
  lemma {:induction false} DotSplit(s: string)
    ensures var dot := IndexOfDot(s);
      && CountDots(s[..dot]) == 0
      && (dot < |s| ==> CountDots(s) == 1 + CountDots(s[dot + 1..]))
      && (dot == |s| ==> CountDots(s) == 0)
  {
    var dot := IndexOfDot(s);
    CountDotsZero(s[..dot]);
    CountDotsSplit(s, dot);
    var tail := s[dot..];
    if dot < |s| {
      assert tail[0] == '.' && tail[1..] == s[dot + 1..];
      assert CountDots(tail) == CountDots(s[dot + 1..]) + 1;
    } else {
      assert tail == [];
    }
  }

  lemma UnsignedSound(s: string)
    requires ParseUnsigned(s).Some?
    ensures IsUnsignedLiteral(s)
  {
    var dot := IndexOfDot(s);
    var whole := s[..dot];
    var fraction := if dot < |s| then s[dot + 1..] else "";
    DotSplit(s);
    assert AllDigits(fraction);
    CountDotsZero(fraction);
    forall i | 0 <= i < |s| ensures IsDigit(s[i]) || s[i] == '.' {
      if i < dot { assert s[i] == whole[i]; }
      else if i > dot { assert s[i] == fraction[i - dot - 1]; }
    }
    if |whole| > 0 {
      assert IsDigit(s[0]) by { assert s[0] == whole[0]; }
    } else {
      assert IsDigit(s[dot + 1]) by { assert s[dot + 1] == fraction[0]; }
    }
  }

  lemma UnsignedComplete(s: string)
    requires IsUnsignedLiteral(s)
    ensures ParseUnsigned(s).Some?
  {
    var dot := IndexOfDot(s);
    var whole := s[..dot];
    var fraction := if dot < |s| then s[dot + 1..] else "";
    DotSplit(s);
    assert AllDigits(whole) by {
      forall i | 0 <= i < |whole| ensures IsDigit(whole[i]) { assert whole[i] == s[i]; }
    }
    if dot < |s| {
      CountDotsZero(fraction);
      forall j | 0 <= j < |fraction| ensures IsDigit(fraction[j]) {
        assert fraction[j] == s[dot + 1 + j];
      }
    }
    var k :| 0 <= k < |s| && IsDigit(s[k]);
    assert k != dot || dot == |s|;
    if k < dot { assert |whole| > 0; } else { assert |fraction| > 0; }
  }

  /** The parser accepts exactly the strings of the literal grammar. */
  lemma ParseDecimalAcceptsExactlyLiterals(s: string)
    ensures ParseDecimal(s).Some? <==> IsDecimalLiteral(s)
  {
    var body := if s != [] && (s[0] == '+' || s[0] == '-') then s[1..] else s;
    assert ParseDecimal(s).Some? <==> ParseUnsigned(body).Some?;
    assert IsDecimalLiteral(s) <==> IsUnsignedLiteral(body);
    if ParseUnsigned(body).Some? { UnsignedSound(body); }
    if IsUnsignedLiteral(body) { UnsignedComplete(body); }
  }

  lemma {:induction false} DigitsValueConcat(a: string, b: string)
    requires AllDigits(a) && AllDigits(b)
    ensures AllDigits(a + b)
    ensures DigitsValue(a + b) == DigitsValue(a) * Pow10(|b|) + DigitsValue(b)
    decreases |b|
  {
    assert AllDigits(a + b) by {
      forall i | 0 <= i < |a + b| ensures IsDigit((a + b)[i]) {
        if i < |a| { assert (a + b)[i] == a[i]; } else { assert (a + b)[i] == b[i - |a|]; }
      }
    }
    if b == [] {
      assert a + b == a;
    } else {
      var n := |b| - 1;
      var b' := b[..n];
      assert (a + b)[..|a + b| - 1] == a + b';
      assert (a + b)[|a + b| - 1] == b[n];
      DigitsValueConcat(a, b');
      var d := b[n] as int - '0' as int;
      assert DigitsValue(a + b) == DigitsValue(a + b') * 10 + d;
      assert DigitsValue(b) == DigitsValue(b') * 10 + d;
      ShiftDigit(DigitsValue(a), DigitsValue(b'), Pow10(|b'|), d);
    }
  }

  /** Appending a digit `d` to `x` followed by `y` (of weight `p`) shifts both by one place. */
  lemma ShiftDigit(x: int, y: int, p: int, d: int)
    ensures (x * p + y) * 10 + d == x * (10 * p) + (y * 10 + d)
  {
  }

  lemma ParseUnsignedOfParts(whole: string, fraction: string)
    requires AllDigits(whole) && AllDigits(fraction) && |whole| + |fraction| > 0
    ensures ParseUnsigned(whole + "." + fraction) == Some(Ratio(DigitsValue(whole + fraction), Pow10(|fraction|)))
  {
    var s := whole + "." + fraction;
    IndexOfDotOfDigits(whole, "." + fraction);
    assert s == whole + ("." + fraction);
    assert s[..|whole|] == whole;
    assert s[|whole| + 1..] == fraction;
  }

  /** `whole.fraction` denotes whole + fraction / 10^|fraction|: its digits' value over 10^|fraction|. */
  lemma ParseDecimalValue(whole: string, fraction: string)
    requires AllDigits(whole) && AllDigits(fraction) && |whole| + |fraction| > 0
    ensures ParseDecimal(whole + "." + fraction) == Some(Ratio(DigitsValue(whole + fraction), Pow10(|fraction|)))
    ensures DigitsValue(whole + fraction) == DigitsValue(whole) * Pow10(|fraction|) + DigitsValue(fraction)
  {
    var s := whole + "." + fraction;
    assert s[0] == if |whole| > 0 then whole[0] else '.';
    assert !(s[0] == '+' || s[0] == '-') by {
      if |whole| > 0 { assert IsDigit(whole[0]); }
    }
    Unsigned(s);
    ParseUnsignedOfParts(whole, fraction);
    DigitsValueConcat(whole, fraction);
  }

  /** Without a sign, `ParseDecimal` is `ParseUnsigned`. */
  lemma Unsigned(s: string)
    requires s == [] || !(s[0] == '+' || s[0] == '-')
    ensures ParseDecimal(s) == ParseUnsigned(s)
  {
  }

  /** An integer literal denotes its digits' value. */
  lemma ParseDecimalInteger(whole: string)
    requires AllDigits(whole) && |whole| > 0
    ensures ParseDecimal(whole) == Some(Ratio(DigitsValue(whole), 1))
  {
    IndexOfDotOfDigits(whole, "");
    assert whole + "" == whole;
    assert whole[..|whole|] == whole;
    assert whole + "" == whole;
    assert IsDigit(whole[0]);
  }

  lemma {:induction false} IndexOfDotOfDigits(whole: string, rest: string)
    requires AllDigits(whole)
    requires rest == [] || rest[0] == '.'
    ensures IndexOfDot(whole + rest) == |whole|
    decreases |whole|
  {
    if whole == [] {
      assert whole + rest == rest;
    } else {
      assert (whole + rest)[1..] == whole[1..] + rest;
      IndexOfDotOfDigits(whole[1..], rest);
    }
  }
}
