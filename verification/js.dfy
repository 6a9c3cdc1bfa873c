/** The JavaScript semantics the client and the server lean on: request
    values and their truthiness, `String.prototype.trim`, a simplified
    `parseInt`, `Math.floor(a / b)` and the truncating `%` operator. */
module Js {
  import opened Decimal
  import opened Optional

  /** A value read from a JSON request body. `Undefined` is an absent key.
      Numbers are unbounded integers: JavaScript's doubles, exact only up
      to 2^53, fractions, objects and arrays are not modelled. */
  datatype JsValue = Undefined | Null | Bool(b: bool) | Num(n: int) | Str(s: string)

  /** JavaScript's `!!v`: every value is truthy except the falsy ones
      `undefined`, `null`, `false`, `0` and `""`. */
  predicate Truthy(v: JsValue)
    ensures Truthy(v) <==> v !in {Undefined, Null, Bool(false), Num(0), Str("")}
  {
    match v
    case Undefined => false
    case Null => false
    case Bool(b) => b
    case Num(n) => n != 0
    case Str(s) => s != ""
  }

  /** `!!header` for a header that may be missing. */
  predicate TruthyHeader(h: Option<string>) {
    h.Some? && h.value != ""
  }

  /** The white space and line terminators that `trim` and `parseInt` skip. */
  predicate IsSpace(c: char) {
    var k := c as int;
    k == 0x20 || (0x09 <= k <= 0x0D) || k == 0xA0 || k == 0x1680
    || (0x2000 <= k <= 0x200A) || k == 0x2028 || k == 0x2029
    || k == 0x202F || k == 0x205F || k == 0x3000 || k == 0xFEFF
  }

  predicate IsBlank(s: string) {
    forall i :: 0 <= i < |s| ==> IsSpace(s[i])
  }

  function TrimStart(s: string): (r: string)
    ensures |r| <= |s| && r == s[|s| - |r|..]
    ensures IsBlank(s[..|s| - |r|])
    ensures |r| > 0 ==> !IsSpace(r[0])
  {
    if |s| > 0 && IsSpace(s[0]) then TrimStart(s[1..]) else s
  }

  function TrimEnd(s: string): (r: string)
    ensures |r| <= |s| && r == s[..|r|]
    ensures IsBlank(s[|r|..])
    ensures |r| > 0 ==> !IsSpace(r[|r| - 1])
  {
    if |s| > 0 && IsSpace(s[|s| - 1]) then TrimEnd(s[..|s| - 1]) else s
  }

  /** `String.prototype.trim`: the white space at the start of `s` is cut
      by `TrimStart`, whose result is the rest of `s`; of that rest, the
      result keeps the front and cuts white space at the end. */
  function Trim(s: string): (r: string)
    ensures |r| <= |TrimStart(s)| && r == TrimStart(s)[..|r|]
    ensures IsBlank(s[..|s| - |TrimStart(s)|]) && IsBlank(TrimStart(s)[|r|..])
    ensures |r| > 0 ==> !IsSpace(r[0]) && !IsSpace(r[|r| - 1])
  {
    TrimEnd(TrimStart(s))
  }

  lemma BlankConcat(a: string, b: string)
    requires IsBlank(a) && IsBlank(b)
    ensures IsBlank(a + b)
  {
    assert forall i :: 0 <= i < |a + b| ==> (a + b)[i] == if i < |a| then a[i] else b[i - |a|];
  }

  lemma {:induction false} TrimStartOfBlank(s: string)
    requires IsBlank(s)
    ensures TrimStart(s) == ""
  {
    if |s| > 0 {
      TrimStartOfBlank(s[1..]);
    }
  }

  /** `s.trim()` is empty exactly when every character of `s` is white space. */
  lemma TrimEmptyIffBlank(s: string)
    ensures Trim(s) == "" <==> IsBlank(s)
  {
    if IsBlank(s) {
      TrimStartOfBlank(s);
    }
    if Trim(s) == "" {
      var t := TrimStart(s);
      assert t[0..] == t;
      assert s == s[..|s| - |t|] + t;
      BlankConcat(s[..|s| - |t|], t);
    }
  }

  /** The number `parseInt` yields: NaN, or an integer. */
  datatype Parsed = NaN | Int(value: int)

  /** `p || d` for the number `p`: NaN and 0 are falsy. */
  function OrDefault(p: Parsed, d: int): int {
    if p.Int? && p.value != 0 then p.value else d
  }

  /** The longest prefix of `s` made of decimal digits. */
  function DigitPrefix(s: string): (r: string)
    ensures |r| <= |s| && r == s[..|r|] && AllDigits(r)
    ensures |r| < |s| ==> !IsDigit(s[|r|])
  {
    if |s| > 0 && IsDigit(s[0]) then [s[0]] + DigitPrefix(s[1..]) else ""
  }

  /** `parseInt(s)` without a radix, simplified: leading white space, an
      optional sign, then the longest run of decimal digits; NaN when there
      are no digits. */
  function ParseInt(s: string): (r: Parsed)
    ensures IsBlank(s) ==> r == NaN
    ensures |s| > 0 && AllDigits(s) ==> r == Int(DigitsValue(s))
  {
    BlankTrimsToNothing(s);
    DigitsNeedNoTrim(s);
    ReadSigned(TrimStart(s))
  }

  /** What `parseInt` reads once the leading white space is skipped: an
      optional sign, then the longest run of digits; NaN without a digit. */
  function ReadSigned(t: string): (r: Parsed)
    ensures t == "" ==> r == NaN
    ensures |t| > 0 && AllDigits(t) ==> r == Int(DigitsValue(t))
  {
    DigitsAreTheirPrefix(t);
    var signed := |t| > 0 && (t[0] == '-' || t[0] == '+');
    var body := if signed then t[1..] else t;
    var digits := DigitPrefix(body);
    if |digits| == 0 then NaN
    else
      var v: int := DigitsValue(digits);
      if signed && t[0] == '-' then Int(-v) else Int(v)
  }

  /** `parseInt(v)` for a query parameter that may be missing:
      `parseInt(undefined)` reads the text "undefined" and is NaN. */
  function ParseParam(v: Option<string>): Parsed {
    match v
    case None => NaN
    case Some(s) => ParseInt(s)
  }

  /** Blank input trims to nothing. */
  lemma BlankTrimsToNothing(s: string)
    ensures IsBlank(s) ==> TrimStart(s) == ""
  {
    if IsBlank(s) {
      TrimStartOfBlank(s);
    }
  }

  /** A digit string has no leading white space to trim. */
  lemma DigitsNeedNoTrim(s: string)
    ensures |s| > 0 && AllDigits(s) ==> TrimStart(s) == s
  {
    if |s| > 0 && AllDigits(s) {
      assert IsDigit(s[0]);
    }
  }

  /** A digit string is its own digit prefix. */
  lemma DigitsAreTheirPrefix(s: string)
    ensures AllDigits(s) ==> DigitPrefix(s) == s
  {
    if AllDigits(s) {
      DigitPrefixOfDigits(s);
    }
  }

  lemma {:induction false} DigitPrefixOfDigits(s: string)
    requires AllDigits(s)
    ensures DigitPrefix(s) == s
  {
    if |s| > 0 {
      DigitPrefixOfDigits(s[1..]);
    }
  }

  lemma {:induction false} ParseIntOfDigits(ds: string)
    requires |ds| > 0 && AllDigits(ds)
    ensures ParseInt(ds) == Int(DigitsValue(ds))
  {
    assert !IsSpace(ds[0]);
    assert TrimStart(ds) == ds;
    DigitPrefixOfDigits(ds);
  }

  /** Leading white space is skipped up to the first other character. */
  lemma {:induction false} TrimStartSkips(ws: string, x: string)
    requires IsBlank(ws)
    requires x == "" || !IsSpace(x[0])
    ensures TrimStart(ws + x) == x
    decreases |ws|
  {
    if |ws| == 0 {
      assert ws + x == x;
    } else {
      assert (ws + x)[0] == ws[0];
      assert (ws + x)[1..] == ws[1..] + x;
      TrimStartSkips(ws[1..], x);
    }
  }

  /** The digit prefix ends at the first character that is not a digit. */
  lemma {:induction false} DigitPrefixStops(ds: string, rest: string)
    requires AllDigits(ds)
    requires rest == "" || !IsDigit(rest[0])
    ensures DigitPrefix(ds + rest) == ds
    decreases |ds|
  {
    if |ds| == 0 {
      assert ds + rest == rest;
    } else {
      assert (ds + rest)[0] == ds[0];
      assert (ds + rest)[1..] == ds[1..] + rest;
      DigitPrefixStops(ds[1..], rest);
    }
  }

  /** How `parseInt` reads a text: leading white space, an optional sign, a
      run of digits and anything after the first non-digit give the signed
      value of the digits (`" 12"` is 12, `"-5"` is -5, `"30s"` is 30). */
  lemma ParseIntReads(ws: string, sign: string, ds: string, rest: string)
    requires IsBlank(ws) && sign in {"", "+", "-"}
    requires |ds| > 0 && AllDigits(ds)
    requires rest == "" || !IsDigit(rest[0])
    ensures ParseInt(ws + sign + ds + rest)
            == Int(if sign == "-" then -(DigitsValue(ds) as int) else DigitsValue(ds))
  {
    var x := sign + ds + rest;
    Regroup(ws, sign, ds, rest);
    SignedDigitsStart(sign, ds, rest);
    TrimStartSkips(ws, x);
    ReadSignedDigits(sign, ds, rest);
  }

  /** Concatenation regrouped, kept apart from the facts about its parts. */
  lemma Regroup(a: string, b: string, c: string, d: string)
    ensures a + b + c + d == a + (b + c + d)
  {
  }

  lemma Regroup3(a: string, b: string, c: string)
    ensures a + b + c == a + (b + c)
  {
  }

  /** A sign or a digit is not white space. */
  lemma SignedDigitsStart(sign: string, ds: string, rest: string)
    requires sign in {"", "+", "-"}
    requires |ds| > 0 && AllDigits(ds)
    ensures !IsSpace((sign + ds + rest)[0])
  {
    assert IsDigit(ds[0]);
  }

  /** After the white space: an optional sign, then digits up to a non-digit. */
  lemma ReadSignedDigits(sign: string, ds: string, rest: string)
    requires sign in {"", "+", "-"}
    requires |ds| > 0 && AllDigits(ds)
    requires rest == "" || !IsDigit(rest[0])
    ensures ReadSigned(sign + ds + rest)
            == Int(if sign == "-" then -(DigitsValue(ds) as int) else DigitsValue(ds))
  {
    Regroup3(sign, ds, rest);
    if sign == "" {
      assert sign + (ds + rest) == ds + rest;
      ReadUnsigned(ds, rest);
    } else {
      assert sign == [sign[0]];
      ReadAfterSign(sign[0], ds, rest);
    }
  }

  /** No sign: the digit run is read as it is. */
  lemma ReadUnsigned(ds: string, rest: string)
    requires |ds| > 0 && AllDigits(ds)
    requires rest == "" || !IsDigit(rest[0])
    ensures ReadSigned(ds + rest) == Int(DigitsValue(ds))
  {
    DigitPrefixStops(ds, rest);
    assert IsDigit((ds + rest)[0]);
  }

  /** A sign character, then the digit run: `-` negates it and `+` keeps it. */
  lemma ReadAfterSign(c: char, ds: string, rest: string)
    requires c == '+' || c == '-'
    requires |ds| > 0 && AllDigits(ds)
    requires rest == "" || !IsDigit(rest[0])
    ensures c == '-' ==> ReadSigned([c] + (ds + rest)) == Int(-(DigitsValue(ds) as int))
    ensures c == '+' ==> ReadSigned([c] + (ds + rest)) == Int(DigitsValue(ds))
  {
    var body := ds + rest;
    DigitPrefixStops(ds, rest);
    var x := [c] + body;
    assert x[1..] == body;
    ReadSignedOfSign(x, ds);
  }

  /** A signed text once its digit prefix is known. */
  lemma ReadSignedOfSign(t: string, ds: string)
    requires |t| > 0 && (t[0] == '-' || t[0] == '+')
    requires DigitPrefix(t[1..]) == ds && |ds| > 0
    ensures t[0] == '-' ==> ReadSigned(t) == Int(-(DigitsValue(ds) as int))
    ensures t[0] == '+' ==> ReadSigned(t) == Int(DigitsValue(ds))
  {
  }

  /** With no digit after the white space and the optional sign, `parseInt`
      gives NaN (`"all"`, `"-"`, `" +x"`). */
  lemma ParseIntWithoutDigits(ws: string, sign: string, rest: string)
    requires IsBlank(ws) && sign in {"", "+", "-"}
    requires rest == "" || !IsDigit(rest[0])
    requires sign == "" ==> rest == "" || (!IsSpace(rest[0]) && rest[0] != '+' && rest[0] != '-')
    ensures ParseInt(ws + sign + rest) == NaN
  {
    var x := sign + rest;
    assert ws + sign + rest == ws + x;
    assert TrimStart(ws + x) == x by {
      assert x == "" || x[0] == (if sign == "" then rest[0] else sign[0]);
      TrimStartSkips(ws, x);
    }
    ReadSignedNoDigits(sign, rest);
  }

  /** After the white space, nothing to read gives NaN. */
  lemma ReadSignedNoDigits(sign: string, rest: string)
    requires sign in {"", "+", "-"}
    requires rest == "" || !IsDigit(rest[0])
    requires sign == "" ==> rest == "" || (rest[0] != '+' && rest[0] != '-')
    ensures ReadSigned(sign + rest) == NaN
  {
    var x := sign + rest;
    assert (if sign == "" then x else x[1..]) == rest;
    assert DigitPrefix(rest) == "";
  }

  /** A unit after the number is ignored: `parseInt("30s")` is 30. */
  lemma ParseIntOfSuffixed()
    ensures ParseInt("30s") == Int(30)
  {
    assert "30s" == "" + "" + "30" + "s";
    assert DigitsValue("30") == 30 by {
      assert "30"[..1] == "3";
    }
    ParseIntReads("", "", "30", "s");
  }

  /** Leading white space is skipped: `parseInt(" 12")` is 12. */
  lemma ParseIntOfIndented()
    ensures ParseInt(" 12") == Int(12)
  {
    assert " 12" == " " + "" + "12" + "";
    assert DigitsValue("12") == 12 by {
      assert "12"[..1] == "1";
    }
    ParseIntReads(" ", "", "12", "");
  }

  /** A minus sign negates the digits: `parseInt("-5")` is -5. */
  lemma ParseIntOfSigned()
    ensures ParseInt("-5") == Int(-5)
  {
    assert "-5" == "" + "-" + "5" + "";
    assert DigitsValue("5") == 5;
    ParseIntReads("", "-", "5", "");
  }

  lemma {:induction false} ParseIntOfNegatedDigits(ds: string)
    requires |ds| > 0 && AllDigits(ds)
    ensures ParseInt("-" + ds) == Int(-(DigitsValue(ds) as int))
  {
    var s := "-" + ds;
    assert s[0] == '-';
    assert !IsSpace(s[0]);
    assert TrimStart(s) == s;
    assert s[1..] == ds;
    DigitPrefixOfDigits(ds);
  }

  lemma {:induction false} ParseIntOfNegative(i: int)
    requires i < 0
    ensures ParseInt(IntToString(i)) == Int(i)
  {
    var n: nat := -i;
    var ds := NatToString(n);
    assert IntToString(i) == "-" + ds;
    ParseIntOfNegatedDigits(ds);
    NatToStringRoundTrip(n);
  }

  lemma {:induction false} ParseIntOfNonNegative(i: int)
    requires i >= 0
    ensures ParseInt(IntToString(i)) == Int(i)
  {
    var ds := NatToString(i);
    assert IntToString(i) == ds;
    ParseIntOfDigits(ds);
    NatToStringRoundTrip(i);
  }

  /** Reading back what `String(i)` wrote gives `i`. */
  lemma ParseIntOfIntToString(i: int)
    ensures ParseInt(IntToString(i)) == Int(i)
  {
    if i < 0 {
      ParseIntOfNegative(i);
    } else {
      ParseIntOfNonNegative(i);
    }
  }

  /** `Math.floor(a / b)` for a positive divisor. */
  function FloorDiv(a: int, b: int): int
    requires b > 0
  {
    a / b
  }

  /** The quotient of `a / b` truncated toward zero, `Math.trunc(a / b)`,
      for a positive divisor. */
  function TruncDiv(a: int, b: int): int
    requires b > 0
  {
    if a >= 0 then a / b else -((-a) / b)
  }

  /** JavaScript's `a % b` for a positive divisor: it truncates toward zero,
      so the result takes the sign of `a`. */
  function Rem(a: int, b: int): (r: int)
    requires b > 0
    ensures -b < r < b
    ensures a >= 0 ==> 0 <= r
    ensures a < 0 ==> r <= 0
    ensures a >= 0 ==> r == a % b
    ensures a == b * TruncDiv(a, b) + r
  {
    if a >= 0 then a % b
    else
      var q := (-a) / b;
      assert -a == b * q + (-a) % b;
      assert b * TruncDiv(a, b) == -(b * q);
      -((-a) % b)
  }

  /** `%` is odd in its dividend: `(-a) % b` is `-(a % b)`. */
  lemma RemIsOdd(a: int, b: int)
    requires b > 0
    ensures Rem(-a, b) == -Rem(a, b)
  {
  }

  /** For a non-negative dividend, the floored quotient and the remainder
      split it: `b * Math.floor(a / b) + a % b == a`. */
  lemma FloorDivRemSplit(a: int, b: int)
    requires a >= 0 && b > 0
    ensures b * FloorDiv(a, b) + Rem(a, b) == a
    ensures 0 <= Rem(a, b) < b
  {
  }
}
