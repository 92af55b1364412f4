/** The JavaScript string built-ins the forms and handlers rely on: `trim`,
    `replace(/\D/g, '')`, `<` on strings, `parseInt` and number-to-string. */
module JsText {
  import opened JsBase

  /** The characters `\s` matches and `String.prototype.trim` removes: the
      ECMAScript WhiteSpace set (tab, vertical tab, form feed, space, no-break
      space, byte-order mark and every Zs space separator) and the LineTerminator set. */
  predicate IsSpace(c: char)
  {
    || c == '\t' || c == '\n' || c == '\U{B}' || c == '\U{C}' || c == '\r' || c == ' '
    || c == '\U{A0}' || c == '\U{1680}' || ('\U{2000}' <= c <= '\U{200A}')
    || c == '\U{2028}' || c == '\U{2029}' || c == '\U{202F}' || c == '\U{205F}'
    || c == '\U{3000}' || c == '\U{FEFF}'
  }

  /** Every character of `s` is white space (this includes the empty string). */
  predicate Blank(s: string)
  {
    forall i :: 0 <= i < |s| ==> IsSpace(s[i])
  }

  lemma BlankPrepend(c: char, t: string)
    requires IsSpace(c) && Blank(t)
    ensures Blank([c] + t)
  {
    assert forall i :: 1 <= i < |t| + 1 ==> ([c] + t)[i] == t[i - 1];
  }

  /** `s.trimStart()`: `s` without its leading white space. */
  function TrimStart(s: string): (r: string)
    ensures |r| <= |s| && r == s[|s| - |r|..]
    ensures Blank(s[..|s| - |r|])
    ensures r == [] || !IsSpace(r[0])
  {
    if |s| > 0 && IsSpace(s[0]) then
      var r := TrimStart(s[1..]);
      assert s[1..][|s| - 1 - |r|..] == s[|s| - |r|..];
      BlankPrepend(s[0], s[1..][..|s| - 1 - |r|]);
      assert s[..|s| - |r|] == [s[0]] + s[1..][..|s| - 1 - |r|];
      r
    else s
  }

  /** `s.trimEnd()`: `s` without its trailing white space. */
  function TrimEnd(s: string): (r: string)
    ensures |r| <= |s| && r == s[..|r|]
    ensures Blank(s[|r|..])
    ensures r == [] || !IsSpace(r[|r| - 1])
  {
    if |s| > 0 && IsSpace(s[|s| - 1]) then
      var r := TrimEnd(s[..|s| - 1]);
      assert s[|r|..] == s[..|s| - 1][|r|..] + [s[|s| - 1]];
      r
    else s
  }

  /** `s.trim()`: the longest infix of `s` that neither starts nor ends with white space. */
  function Trim(s: string): (r: string)
    ensures |r| <= |s|
    ensures r == [] || (!IsSpace(r[0]) && !IsSpace(r[|r| - 1]))
    ensures r == [] <==> Blank(s)
  {
    TrimEnd(TrimStart(s))
  }

  /** What `trim` removes is white space, from the two ends only: the result is the
      infix of `s` between a blank prefix and a blank suffix. */
  lemma TrimInfix(s: string)
    ensures exists i :: 0 <= i <= |s| - |Trim(s)| && Trim(s) == s[i..i + |Trim(s)|] &&
                        Blank(s[..i]) && Blank(s[i + |Trim(s)|..])
  {
    var t := TrimStart(s);
    var r := TrimEnd(t);
    var i := |s| - |t|;
    assert t == s[i..];
    assert r == t[..|r|] == s[i..i + |r|];
    assert s[i + |r|..] == t[|r|..];
    assert Blank(s[..i]) && Blank(s[i + |r|..]);
    assert Trim(s) == r;
    assert 0 <= i <= |s| - |Trim(s)| && Trim(s) == s[i..i + |Trim(s)|] &&
           Blank(s[..i]) && Blank(s[i + |Trim(s)|..]);
  }

  /** Trimming a string that has been trimmed already changes nothing. */
  lemma TrimIdempotent(s: string)
    ensures Trim(Trim(s)) == Trim(s)
  {
    var r := Trim(s);
    assert TrimStart(r) == r;
    assert TrimEnd(r) == r;
  }

  predicate IsDigit(c: char)
  {
    '0' <= c <= '9'
  }

  predicate AllDigits(s: string)
  {
    forall i :: 0 <= i < |s| ==> IsDigit(s[i])
  }

  /** `s.replace(/\D/g, '')`: the decimal digits of `s`, in order. */
  function Digits(s: string): (r: string)
    ensures AllDigits(r) && |r| <= |s|
  {
    if s == [] then []
    else if IsDigit(s[0]) then [s[0]] + Digits(s[1..])
    else Digits(s[1..])
  }

  /** Stripping non-digits distributes over concatenation. */
  lemma {:induction false} DigitsAppend(a: string, b: string)
    ensures Digits(a + b) == Digits(a) + Digits(b)
  {
    if a == [] {
      assert a + b == b;
    } else {
      assert (a + b)[1..] == a[1..] + b;
      DigitsAppend(a[1..], b);
    }
  }

  /** A string made of digits only is left as it is. */
  lemma {:induction false} DigitsOfDigits(s: string)
    requires AllDigits(s)
    ensures Digits(s) == s
  {
    if s != [] {
      DigitsOfDigits(s[1..]);
    }
  }

  /** The digits of `s` are `s` exactly when `s` holds nothing but digits. */
  lemma DigitsFixedIff(s: string)
    ensures Digits(s) == s <==> AllDigits(s)
  {
    if AllDigits(s) {
      DigitsOfDigits(s);
    }
  }

  /** The digits of the phone layout `(a) b-c` are the three groups it lays out. */
  lemma {:induction false} DigitsOfLongLayout(a: string, b: string, c: string)
    requires AllDigits(a) && AllDigits(b) && AllDigits(c)
    ensures Digits("(" + a + ") " + b + "-" + c) == a + b + c
  {
    DigitsOfShortLayout(a, b);
    var x := "(" + a + ") " + b;
    assert Digits(x) == a + b;
    DigitsAppend(x, "-");
    assert Digits("-") == [];
    assert Digits(x + "-") == a + b;
    DigitsAppend(x + "-", c);
    DigitsOfDigits(c);
  }

  /** The digits of the phone layout `(a) b` are the two groups it lays out. */
  lemma {:induction false} DigitsOfShortLayout(a: string, b: string)
    requires AllDigits(a) && AllDigits(b)
    ensures Digits("(" + a + ") " + b) == a + b
  {
    var x := "(" + a;
    DigitsAppend("(", a);
    DigitsOfDigits(a);
    assert Digits("(") == [];
    assert Digits(x) == a;
    DigitsAppend(x, ") ");
    assert Digits(") ") == [];
    assert Digits(x + ") ") == a;
    DigitsAppend(x + ") ", b);
    DigitsOfDigits(b);
  }

  /** One character is kept exactly when it is a decimal digit; with `DigitsAppend`
      this fixes `Digits` on every string. */
  lemma DigitsOne(c: char)
    ensures Digits([c]) == if IsDigit(c) then [c] else []
  {
    assert [c][1..] == [];
  }

  /** JavaScript's `a < b` on strings: lexicographic order of the characters,
      a proper prefix coming first. */
  predicate StrLess(a: string, b: string)
  {
    if a == [] then b != []
    else if b == [] then false
    else if a[0] != b[0] then a[0] < b[0]
    else StrLess(a[1..], b[1..])
  }

  /** `<` on strings is irreflexive and total on distinct strings. */
  lemma {:induction false} StrLessTrichotomy(a: string, b: string)
    ensures !(StrLess(a, b) && StrLess(b, a))
    ensures a == b ==> !StrLess(a, b)
    ensures a != b ==> StrLess(a, b) || StrLess(b, a)
  {
    if a != [] && b != [] && a[0] == b[0] {
      StrLessTrichotomy(a[1..], b[1..]);
      if a != b {
        assert a == [a[0]] + a[1..] && b == [b[0]] + b[1..];
      }
    }
  }

  /** A proper prefix comes before the longer string. */
  lemma {:induction false} StrLessProperPrefix(a: string, b: string)
    ensures |a| < |b| && b[..|a|] == a ==> StrLess(a, b)
  {
    if |a| < |b| && b[..|a|] == a && a != [] {
      assert a[0] == b[..|a|][0];
      assert b[1..][..|a| - 1] == a[1..];
      StrLessProperPrefix(a[1..], b[1..]);
    }
  }

  /** Two strings compare by their first differing character. */
  lemma {:induction false} StrLessFirstDiff(a: string, b: string, k: nat)
    requires k < |a| && k < |b| && a[..k] == b[..k] && a[k] != b[k]
    ensures StrLess(a, b) <==> a[k] < b[k]
  {
    if k > 0 {
      assert a[0] == a[..k][0] && b[0] == b[..k][0];
      assert a[1..][..k - 1] == a[..k][1..] && b[1..][..k - 1] == b[..k][1..];
      StrLessFirstDiff(a[1..], b[1..], k - 1);
    }
  }

  /** The longest prefix of `s` made of digits. */
  function DigitPrefix(s: string): (r: string)
    ensures AllDigits(r) && |r| <= |s| && r == s[..|r|]
    ensures |r| == |s| || !IsDigit(s[|r|])
  {
    if s != [] && IsDigit(s[0]) then [s[0]] + DigitPrefix(s[1..]) else []
  }

  /** The value of a decimal numeral. */
  function DecimalValue(d: string): nat
    requires AllDigits(d)
  {
    if d == [] then 0 else 10 * DecimalValue(d[..|d| - 1]) + (d[|d| - 1] as int - '0' as int)
  }

  /** `parseInt(s)` with no radix, for decimal text: leading white space and one
      sign are skipped and the longest run of digits is read; `None` is `NaN`. */
  function ParseInt(s: string): (r: Option<int>)
    ensures r.None? <==> DigitPrefix(SkipSign(TrimStart(s))) == []
  {
    var digits := DigitPrefix(SkipSign(TrimStart(s)));
    if digits == [] then None
    else if Negative(TrimStart(s)) then Some(-(DecimalValue(digits) as int))
    else Some(DecimalValue(digits))
  }

  predicate Negative(t: string)
  {
    |t| > 0 && t[0] == '-'
  }

  function SkipSign(t: string): string
  {
    if |t| > 0 && (t[0] == '-' || t[0] == '+') then t[1..] else t
  }

  function DigitChar(d: nat): (c: char)
    requires d < 10
    ensures IsDigit(c) && c as int - '0' as int == d
  {
    ('0' as int + d) as char
  }

  /** The decimal numeral of a natural number, without leading zeros. */
  function NatToString(n: nat): (s: string)
    ensures AllDigits(s) && |s| > 0
    ensures |s| > 1 ==> s[0] != '0'
  {
    if n < 10 then [DigitChar(n)] else NatToString(n / 10) + [DigitChar(n % 10)]
  }

  /** `${n}` for an integer-valued number. */
  function IntToString(n: int): (s: string)
    ensures |s| > 0
    ensures n >= 0 ==> AllDigits(s) && (|s| > 1 ==> s[0] != '0')
    ensures n < 0 ==> |s| > 1 && s[0] == '-' && AllDigits(s[1..]) && s[1] != '0'
  {
    if n < 0 then "-" + NatToString(-n) else NatToString(n)
  }

  /** Reading back the numeral of `n` gives `n`. */
  lemma {:induction false} DecimalValueOfNatToString(n: nat)
    ensures DecimalValue(NatToString(n)) == n
  {
    if n >= 10 {
      var s := NatToString(n);
      DecimalValueOfNatToString(n / 10);
      assert s[..|s| - 1] == NatToString(n / 10);
    }
  }

  /** `parseInt` inverts number-to-string on integers. */
  lemma ParseIntOfIntToString(n: int)
    ensures ParseInt(IntToString(n)) == Some(n)
  {
    var s := IntToString(n);
    var m: nat := if n < 0 then -n else n;
    var digits := NatToString(m);
    assert !IsSpace(s[0]);
    assert TrimStart(s) == s;
    assert SkipSign(s) == digits;
    DigitPrefixOfDigits(digits);
    DecimalValueOfNatToString(m);
  }

  lemma {:induction false} DigitPrefixOfDigits(s: string)
    requires AllDigits(s)
    ensures DigitPrefix(s) == s
  {
    if s != [] {
      DigitPrefixOfDigits(s[1..]);
    }
  }
}
