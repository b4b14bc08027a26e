/** The album-id helpers of src/utils/numberHelpers.ts. `Number()` on a string follows the
    StringNumericLiteral grammar of section 7.1.4.1.1 of ECMA-262, with exact values in place
    of IEEE 754 doubles. */
module NumberHelpers {
  import opened Wrappers

  /** The characters `String.prototype.trim` removes: ECMAScript WhiteSpace and LineTerminator. */
  predicate IsWhiteSpace(c: char) {
    || c == '\t' || c == '\U{B}' || c == '\U{C}' || c == ' ' || c == '\U{A0}' || c == '\U{FEFF}'
    || c == '\U{1680}' || ('\U{2000}' <= c <= '\U{200A}')
    || c == '\U{202F}' || c == '\U{205F}' || c == '\U{3000}'
    || c == '\n' || c == '\r' || c == '\U{2028}' || c == '\U{2029}'
  }

  predicate AllWhiteSpace(s: string) {
    forall i :: 0 <= i < |s| ==> IsWhiteSpace(s[i])
  }

  /** `s` without its leading white space. */
  function TrimStart(s: string): (r: string)
    ensures |r| <= |s| && r == s[|s| - |r|..]
    ensures AllWhiteSpace(s[..|s| - |r|])
    ensures r != [] ==> !IsWhiteSpace(r[0])
  {
    if |s| > 0 && IsWhiteSpace(s[0]) then
      var r := TrimStart(s[1..]);
      assert s[1..][|s| - 1 - |r|..] == s[|s| - |r|..];
      assert forall i :: 1 <= i < |s| - |r| ==> s[i] == s[1..][..|s| - 1 - |r|][i - 1];
      r
    else
      s
  }

  /** `s` without its trailing white space. */
  function TrimEnd(s: string): (r: string)
    ensures |r| <= |s| && r == s[..|r|]
    ensures AllWhiteSpace(s[|r|..])
    ensures r != [] ==> !IsWhiteSpace(r[|r| - 1])
  {
    if |s| > 0 && IsWhiteSpace(s[|s| - 1]) then
      var r := TrimEnd(s[..|s| - 1]);
      assert s[..|s| - 1][..|r|] == s[..|r|];
      assert s[|r|..] == s[..|s| - 1][|r|..] + [s[|s| - 1]];
      r
    else
      s
  }

  /** `String.prototype.trim`: the text between the leading and the trailing white space. */
  function Trim(s: string): (r: string)
    ensures |r| <= |s|
    ensures r != [] ==> !IsWhiteSpace(r[0]) && !IsWhiteSpace(r[|r| - 1])
  {
    var a := TrimStart(s);
    var r := TrimEnd(a);
    assert r != [] ==> r[0] == a[0];
    r
  }

  // ---------------------------------------------------------------------------------------
  // `Number()` on a string: the StringNumericLiteral grammar of ECMAScript (section 7.1.4.1.1
  // of ECMA-262, "ToNumber Applied to the String Type").

  /** A JavaScript number. A finite value is kept exact, without rounding to a double. */
  datatype JsNumber = Finite(value: real) | PositiveInfinity | NegativeInfinity | NaN

  predicate IsDigit(c: char) {
    '0' <= c <= '9'
  }

  predicate AllDigits(s: string) {
    forall i :: 0 <= i < |s| ==> IsDigit(s[i])
  }

  /** The value of a string of decimal digits, most significant first. */
  function DigitsValue(s: string): (n: nat)
    requires AllDigits(s)
  {
    if s == [] then 0 else 10 * DigitsValue(s[..|s| - 1]) + (s[|s| - 1] as int - '0' as int)
  }

  /** SignedInteger: an optional `+` or `-`, then one or more decimal digits. */
  predicate IsNumeral(t: string) {
    if |t| > 0 && (t[0] == '+' || t[0] == '-') then |t| > 1 && AllDigits(t[1..])
    else |t| > 0 && AllDigits(t)
  }

  function NumeralValue(t: string): int
    requires IsNumeral(t)
  {
    if t[0] == '-' then 0 - DigitsValue(t[1..])
    else if t[0] == '+' then DigitsValue(t[1..])
    else DigitsValue(t)
  }

  function Pow10(k: nat): (p: nat)
    ensures p > 0
  {
    if k == 0 then 1 else 10 * Pow10(k - 1)
  }

  /** `m` times ten to the power `e`. */
  function Scaled(m: nat, e: int): (x: real)
    ensures x >= 0.0
  {
    if e >= 0 then (m * Pow10(e)) as real else m as real / Pow10(-e) as real
  }

  /** The first position of `c` or `d` in `s`; `|s|` when neither occurs. */
  function IndexOf(s: string, c: char, d: char): (i: nat)
    ensures i <= |s|
    ensures forall k :: 0 <= k < i ==> s[k] != c && s[k] != d
    ensures i < |s| ==> s[i] == c || s[i] == d
  {
    if s == [] || s[0] == c || s[0] == d then 0 else 1 + IndexOf(s[1..], c, d)
  }

  /** StrUnsignedDecimalLiteral: `Infinity`, or digits with an optional `.` and fraction
      (at least one digit in all) and an optional exponent `e`/`E` SignedInteger. */
  function UnsignedDecimal(u: string): (r: JsNumber)
    ensures r.Finite? ==> r.value >= 0.0
    ensures r != NegativeInfinity
  {
    if u == "Infinity" then PositiveInfinity
    else
      var i := IndexOf(u, 'e', 'E');
      var mantissa := u[..i];
      var j := IndexOf(mantissa, '.', '.');
      var whole := mantissa[..j];
      var fraction := if j < |mantissa| then mantissa[j + 1..] else [];
      if AllDigits(whole) && AllDigits(fraction) && |whole| + |fraction| > 0
         && (i == |u| || IsNumeral(u[i + 1..]))
      then
        var exponent := if i == |u| then 0 else NumeralValue(u[i + 1..]);
        Finite(Scaled(DigitsValue(whole) * Pow10(|fraction|) + DigitsValue(fraction), exponent - |fraction|))
      else
        NaN
  }

  /** Unary minus. */
  function Negated(n: JsNumber): JsNumber {
    match n
    case Finite(v) => Finite(-v)
    case PositiveInfinity => NegativeInfinity
    case NegativeInfinity => PositiveInfinity
    case NaN => NaN
  }

  /** StrDecimalLiteral: an optional sign, then an unsigned decimal literal. */
  function Decimal(t: string): JsNumber {
    if |t| > 0 && t[0] == '-' then Negated(UnsignedDecimal(t[1..]))
    else if |t| > 0 && t[0] == '+' then UnsignedDecimal(t[1..])
    else UnsignedDecimal(t)
  }

  /** The value of `c` as a digit of a base up to 16; 16 when it is no such digit. */
  function DigitValue(c: char): nat {
    if '0' <= c <= '9' then c as int - '0' as int
    else if 'a' <= c <= 'f' then c as int - 'a' as int + 10
    else if 'A' <= c <= 'F' then c as int - 'A' as int + 10
    else 16
  }

  predicate AllDigitsIn(s: string, radix: nat) {
    forall i :: 0 <= i < |s| ==> DigitValue(s[i]) < radix
  }

  /** The value of a string of digits in base `radix`, most significant first. */
  function RadixValue(s: string, radix: nat): nat
    requires AllDigitsIn(s, radix)
  {
    if s == [] then 0 else radix * RadixValue(s[..|s| - 1], radix) + DigitValue(s[|s| - 1])
  }

  /** The base a NonDecimalIntegerLiteral prefix letter (`0x`, `0o`, `0b`) announces; 0 for any
      other character. */
  function Radix(c: char): nat {
    if c == 'x' || c == 'X' then 16
    else if c == 'o' || c == 'O' then 8
    else if c == 'b' || c == 'B' then 2
    else 0
  }

  /** The characters a StringNumericLiteral can hold besides white space. */
  predicate IsLiteralChar(c: char) {
    || DigitValue(c) < 16 || Radix(c) > 0
    || c == '+' || c == '-' || c == '.' || c == 'e' || c == 'E'
    || c == 'I' || c == 'n' || c == 'i' || c == 't' || c == 'y'
  }

  /** `Number(t)` on already trimmed text: blank is 0; `0x`/`0o`/`0b` and digits of that base
      (no sign) is an integer; otherwise a decimal literal; anything else is NaN. */
  function ToNumber(t: string): (r: JsNumber)
    ensures t == [] ==> r == Finite(0.0)
    ensures IsNumeral(t) ==> r == Finite(NumeralValue(t) as real)
  {
    if t == [] then Finite(0.0)
    else if |t| >= 2 && t[0] == '0' && Radix(t[1]) > 0 then
      var radix, digits := Radix(t[1]), t[2..];
      assert !IsNumeral(t) by {
        NumeralChars(t);
      }
      if |digits| > 0 && AllDigitsIn(digits, radix) then Finite(RadixValue(digits, radix) as real) else NaN
    else
      NumeralDecimal(t);
      Decimal(t)
  }

  /** Only text made of literal characters converts to a number other than NaN. */
  lemma {:induction false} NumberAlphabet(t: string)
    ensures ToNumber(t) != NaN ==> forall k :: 0 <= k < |t| ==> IsLiteralChar(t[k])
  {
    if |t| >= 2 && t[0] == '0' && Radix(t[1]) > 0 {
      var digits := t[2..];
      forall k | ToNumber(t) != NaN && 2 <= k < |t|
        ensures IsLiteralChar(t[k])
      {
        assert t[k] == digits[k - 2];
      }
    } else if t != [] {
      DecimalAlphabet(t);
    }
  }

  /** `parseAlbumId`: trim, convert, and null (None) where `Number` gives NaN. */
  function ParseAlbumId(input: string): (r: Option<JsNumber>)
    ensures r != Some(NaN)
    ensures AllWhiteSpace(input) ==> r == Some(Finite(0.0))
    ensures IsNumeral(Trim(input)) ==> r == Some(Finite(NumeralValue(Trim(input)) as real))
    ensures r.None? ==> Trim(input) != [] && !IsNumeral(Trim(input))
  {
    TrimEmptyExactly(input);
    var albumId := ToNumber(Trim(input));
    if albumId.NaN? then None else Some(albumId)
  }

  /** JavaScript's `n <= 0`, which is false for NaN. */
  predicate AtMostZero(n: JsNumber) {
    match n
    case Finite(v) => v <= 0.0
    case PositiveInfinity => false
    case NegativeInfinity => true
    case NaN => false
  }

  /** `isValidAlbumId`: false for null and for a number at most 0, true otherwise. */
  function IsValidAlbumId(albumId: Option<JsNumber>): (r: bool)
    ensures albumId.None? ==> !r
    ensures albumId.Some? && albumId.value.Finite? ==> (r <==> albumId.value.value > 0.0)
    ensures albumId == Some(PositiveInfinity) ==> r
    ensures albumId == Some(NegativeInfinity) ==> !r
    ensures albumId == Some(NaN) ==> r
  {
    match albumId
    case None => false
    case Some(n) => if AtMostZero(n) then false else true
  }

  // ---------------------------------------------------------------------------------------
  // White space.

  lemma {:induction false} TrimStartOfWhiteSpace(pre: string, s: string)
    requires AllWhiteSpace(pre)
    ensures TrimStart(pre + s) == TrimStart(s)
  {
    if pre == [] {
      assert pre + s == s;
    } else {
      assert (pre + s)[0] == pre[0] && (pre + s)[1..] == pre[1..] + s;
      TrimStartOfWhiteSpace(pre[1..], s);
    }
  }

  lemma {:induction false} TrimEndOfWhiteSpace(s: string, post: string)
    requires AllWhiteSpace(post)
    ensures TrimEnd(s + post) == TrimEnd(s)
  {
    if post == [] {
      assert s + post == s;
    } else {
      var n := |post| - 1;
      assert (s + post)[|s + post| - 1] == post[n] && (s + post)[..|s + post| - 1] == s + post[..n];
      TrimEndOfWhiteSpace(s, post[..n]);
    }
  }

  lemma {:induction false} TrimStartKeepsTail(s: string, post: string)
    requires !AllWhiteSpace(s)
    ensures TrimStart(s + post) == TrimStart(s) + post
  {
    assert s != [];
    if IsWhiteSpace(s[0]) {
      assert (s + post)[1..] == s[1..] + post;
      assert !AllWhiteSpace(s[1..]) by {
        var i :| 0 <= i < |s| && !IsWhiteSpace(s[i]);
        assert s[1..][i - 1] == s[i];
      }
      TrimStartKeepsTail(s[1..], post);
    }
  }

  lemma {:induction false} AllWhiteSpaceTrimsToEmpty(s: string)
    requires AllWhiteSpace(s)
    ensures TrimStart(s) == [] && Trim(s) == []
  {
    TrimStartOfWhiteSpace(s, []);
    assert s + [] == s;
  }

  /** Trimming leaves nothing exactly when the text is all white space. */
  lemma {:induction false} TrimEmptyExactly(s: string)
    ensures Trim(s) == [] <==> AllWhiteSpace(s)
  {
    var a := TrimStart(s);
    var n := |s| - |a|;
    if Trim(s) == [] {
      assert a[0..] == a;
      assert a == [];
      assert s[..n] == s;
    }
    if AllWhiteSpace(s) {
      AllWhiteSpaceTrimsToEmpty(s);
    }
  }

  /** `trim` ignores white space around the text. */
  lemma {:induction false} TrimIgnoresSurroundingWhiteSpace(pre: string, t: string, post: string)
    requires AllWhiteSpace(pre) && AllWhiteSpace(post)
    ensures Trim(pre + t + post) == Trim(t)
  {
    assert pre + t + post == pre + (t + post);
    TrimStartOfWhiteSpace(pre, t + post);
    if AllWhiteSpace(t) {
      assert AllWhiteSpace(t + post);
      AllWhiteSpaceTrimsToEmpty(t + post);
      AllWhiteSpaceTrimsToEmpty(t);
    } else {
      TrimStartKeepsTail(t, post);
      TrimEndOfWhiteSpace(TrimStart(t), post);
    }
  }

  /** Trimming twice is trimming once. */
  lemma {:induction false} TrimIdempotent(s: string)
    ensures Trim(Trim(s)) == Trim(s)
  {
    var r := Trim(s);
    if r != [] {
      assert r[0] == TrimStart(s)[0];
    }
  }

  /** `parseAlbumId` sees only the trimmed text. */
  lemma {:induction false} ParseIgnoresWhiteSpace(pre: string, s: string, post: string)
    requires AllWhiteSpace(pre) && AllWhiteSpace(post)
    ensures ParseAlbumId(pre + s + post) == ParseAlbumId(s) == ParseAlbumId(Trim(s))
  {
    TrimIgnoresSurroundingWhiteSpace(pre, s, post);
    TrimIdempotent(s);
  }

  // ---------------------------------------------------------------------------------------
  // The numeric grammar.

  /** A SignedInteger holds only digits and a leading sign. */
  lemma {:induction false} NumeralChars(t: string)
    ensures IsNumeral(t) ==> forall k :: 0 <= k < |t| ==> IsDigit(t[k]) || t[k] == '+' || t[k] == '-'
  {
    if IsNumeral(t) && (t[0] == '+' || t[0] == '-') {
      forall k | 1 <= k < |t|
        ensures IsDigit(t[k])
      {
        assert t[k] == t[1..][k - 1];
      }
    }
  }

  /** Unsigned digits are a decimal literal with that value. */
  lemma {:induction false} UnsignedDigits(u: string)
    requires |u| > 0 && AllDigits(u)
    ensures UnsignedDecimal(u) == Finite(DigitsValue(u) as real)
  {
    assert IsDigit(u[0]);
    assert u != "Infinity";
    var i := IndexOf(u, 'e', 'E');
    assert i < |u| ==> IsDigit(u[i]);
    assert i == |u|;
    var mantissa := u[..i];
    assert mantissa == u;
    var j := IndexOf(mantissa, '.', '.');
    assert j < |u| ==> IsDigit(u[j]);
    assert j == |u|;
    assert mantissa[..j] == u;
    assert DigitsValue([]) == 0 && Pow10(0) == 1;
  }

  /** A SignedInteger is a decimal literal with its integer value. */
  lemma {:induction false} NumeralDecimal(t: string)
    ensures IsNumeral(t) ==> Decimal(t) == Finite(NumeralValue(t) as real)
  {
    if IsNumeral(t) {
      if t[0] == '-' || t[0] == '+' {
        UnsignedDigits(t[1..]);
      } else {
        UnsignedDigits(t);
      }
    }
  }

  /** `Infinity` is made of literal characters. */
  lemma {:induction false} InfinityAlphabet(u: string)
    requires u == "Infinity"
    ensures forall k :: 0 <= k < |u| ==> IsLiteralChar(u[k])
  {
  }

  /** Digits, then optionally `.` and digits, then optionally `e` or `E` and a SignedInteger,
      are literal characters; `j` is the place of the `.` and `i` that of the exponent mark. */
  lemma {:induction false} PartsAlphabet(u: string, i: nat, j: nat)
    requires j <= i <= |u|
    requires i < |u| ==> u[i] == 'e' || u[i] == 'E'
    requires j < i ==> u[j] == '.'
    requires AllDigits(u[..j])
    requires j < i ==> AllDigits(u[j + 1..i])
    requires i < |u| ==> IsNumeral(u[i + 1..])
    ensures forall k :: 0 <= k < |u| ==> IsLiteralChar(u[k])
  {
    var exponent := if i < |u| then u[i + 1..] else [];
    NumeralChars(exponent);
    forall k | 0 <= k < |u|
      ensures IsLiteralChar(u[k])
    {
      if k < j {
        assert u[k] == u[..j][k];
      } else if j < k < i {
        assert u[k] == u[j + 1..i][k - j - 1];
      } else if k > i {
        assert u[k] == exponent[k - i - 1];
      }
    }
  }

  /** An unsigned decimal literal is made of literal characters. */
  lemma {:induction false} UnsignedAlphabet(u: string)
    ensures UnsignedDecimal(u) != NaN ==> forall k :: 0 <= k < |u| ==> IsLiteralChar(u[k])
  {
    if u == "Infinity" {
      InfinityAlphabet(u);
    } else if UnsignedDecimal(u) != NaN {
      var i := IndexOf(u, 'e', 'E');
      var mantissa := u[..i];
      var j := IndexOf(mantissa, '.', '.');
      assert mantissa[..j] == u[..j];
      assert j < i ==> u[j] == mantissa[j] && mantissa[j + 1..] == u[j + 1..i];
      PartsAlphabet(u, i, j);
    }
  }

  /** A decimal literal is made of literal characters. */
  lemma {:induction false} DecimalAlphabet(t: string)
    ensures Decimal(t) != NaN ==> forall k :: 0 <= k < |t| ==> IsLiteralChar(t[k])
  {
    if |t| > 0 && (t[0] == '-' || t[0] == '+') {
      UnsignedAlphabet(t[1..]);
      forall k | Decimal(t) != NaN && 1 <= k < |t|
        ensures IsLiteralChar(t[k])
      {
        assert t[k] == t[1..][k - 1];
      }
    } else {
      UnsignedAlphabet(t);
    }
  }

  /** `m` followed by the `k` digits of value `d`, scaled back by `k` places, is `m` plus
      `d` tenths to the `k`. */
  lemma ScaledFraction(m: nat, d: nat, k: nat)
    ensures Scaled(m * Pow10(k) + d, 0 - k) == m as real + d as real / Pow10(k) as real
  {
    if k == 0 {
      assert Pow10(k) == 1;
    } else {
      NegativeScale(m * Pow10(k) + d, k);
      FractionSum(m, d, Pow10(k));
    }
  }

  /** `(m * n + d) / n` splits into its whole part `m` and the fraction `d / n`. */
  lemma FractionSum(m: nat, d: nat, n: nat)
    requires n > 0
    ensures (m * n + d) as real / n as real == m as real + d as real / n as real
  {
    var p := n as real;
    RealProduct(m, n);
    var q := d as real / p;
    DivideTimes(d as real, p);
    DistributeSum(m as real, q, p, d as real);
    DivideBack((m * n + d) as real, p, m as real + q);
  }

  /** A negative exponent divides by the power of ten. */
  lemma NegativeScale(x: nat, k: nat)
    requires k > 0
    ensures Scaled(x, 0 - k) == x as real / Pow10(k) as real
  {
  }

  lemma RealProduct(m: nat, n: nat)
    ensures (m * n) as real == m as real * n as real
  {
  }

  lemma DivideTimes(d: real, p: real)
    requires p > 0.0
    ensures (d / p) * p == d
  {
  }

  lemma DistributeSum(m: real, q: real, p: real, d: real)
    requires q * p == d
    ensures (m + q) * p == m * p + d
  {
  }

  lemma DivideBack(x: real, p: real, y: real)
    requires p > 0.0 && y * p == x
    ensures x / p == y
  {
  }

  /** The parts of `w.f`: the exponent mark is absent and the `.` sits after `w`. */
  lemma {:induction false} FractionParts(w: string, f: string)
    requires |w| > 0 && AllDigits(w) && AllDigits(f)
    ensures var t := w + "." + f;
      && (forall k :: 0 <= k < |t| ==> t[k] == '.' || IsDigit(t[k]))
      && IndexOf(t, 'e', 'E') == |t|
      && IndexOf(t, '.', '.') == |w|
      && t[..|w|] == w && t[|w| + 1..] == f
  {
    var t := w + "." + f;
    assert forall k :: 0 <= k < |t| ==> t[k] == '.' || IsDigit(t[k]) by {
      forall k | 0 <= k < |t|
        ensures t[k] == '.' || IsDigit(t[k])
      {
        if k < |w| {
          assert t[k] == w[k];
        } else if k > |w| {
          assert t[k] == f[k - |w| - 1];
        }
      }
    }
    var i := IndexOf(t, 'e', 'E');
    assert i < |t| ==> t[i] == '.' || IsDigit(t[i]);
    assert t[|w|] == '.';
  }

  /** Digits, a `.` and more digits are the number they write in decimal. */
  lemma {:induction false} FractionDecimal(w: string, f: string)
    requires |w| > 0 && AllDigits(w) && AllDigits(f)
    ensures ToNumber(w + "." + f) == Finite(DigitsValue(w) as real + DigitsValue(f) as real / Pow10(|f|) as real)
  {
    var t := w + "." + f;
    FractionParts(w, f);
    assert t[0] == w[0];
    assert t[1] == '.' || IsDigit(t[1]);
    DigitFirst(t);
    assert t[..|t|] == t;
    ScaledFraction(DigitsValue(w), DigitsValue(f), |f|);
  }

  /** Text that starts with a digit and has no radix letter after it is an unsigned decimal
      literal. */
  lemma DigitFirst(t: string)
    requires |t| > 0 && IsDigit(t[0])
    requires |t| >= 2 ==> Radix(t[1]) == 0
    ensures ToNumber(t) == UnsignedDecimal(t)
  {
  }

  // ---------------------------------------------------------------------------------------
  // Album ids.

  /** The decimal digits of `n`, without leading zeros. */
  function DecimalString(n: nat): (s: string)
    ensures |s| > 0 && AllDigits(s)
  {
    var last := ['0' + (n % 10) as char];
    if n < 10 then last else DecimalString(n / 10) + last
  }

  lemma {:induction false} DecimalRoundTrip(n: nat)
    ensures DigitsValue(DecimalString(n)) == n
  {
    var s := DecimalString(n);
    if n >= 10 {
      DecimalRoundTrip(n / 10);
      assert s[..|s| - 1] == DecimalString(n / 10);
    }
  }

  /** A string of digits parses to its value. */
  lemma {:induction false} DigitsParse(s: string)
    requires |s| > 0 && AllDigits(s)
    ensures ParseAlbumId(s) == Some(Finite(DigitsValue(s) as real))
  {
    assert IsDigit(s[0]) && IsDigit(s[|s| - 1]);
    assert !IsWhiteSpace(s[0]) && !IsWhiteSpace(s[|s| - 1]);
    assert TrimStart(s) == s;
    assert TrimEnd(s) == s;
    assert Trim(s) == s;
    assert s[0] != '+' && s[0] != '-';
    assert IsNumeral(s) && NumeralValue(s) == DigitsValue(s);
  }

  /** Writing a whole number in decimal, with any white space around it, and parsing it back
      gives the number. */
  lemma {:induction false} ParseDecimalRoundTrip(pre: string, n: nat, post: string)
    requires AllWhiteSpace(pre) && AllWhiteSpace(post)
    ensures ParseAlbumId(pre + DecimalString(n) + post) == Some(Finite(n as real))
  {
    ParseIgnoresWhiteSpace(pre, DecimalString(n), post);
    DigitsParse(DecimalString(n));
    DecimalRoundTrip(n);
  }

  /** Blank or all-white-space input is 0, not null, and so not a valid album id. */
  lemma {:induction false} BlankParsesToZero(s: string)
    requires AllWhiteSpace(s)
    ensures ParseAlbumId(s) == Some(Finite(0.0))
    ensures !IsValidAlbumId(ParseAlbumId(s))
  {
  }

  /** Null only for text that, once trimmed, is neither blank nor a SignedInteger. */
  lemma {:induction false} ParseNullExactly(s: string)
    ensures ParseAlbumId(s).None? ==> Trim(s) != [] && !IsNumeral(Trim(s))
  {
  }

  /** A character that is not white space survives trimming; `k` is its place in the result. */
  lemma {:induction false} TrimKeeps(s: string, i: nat) returns (k: nat)
    requires i < |s| && !IsWhiteSpace(s[i])
    ensures k < |Trim(s)| && Trim(s)[k] == s[i]
  {
    var a := TrimStart(s);
    var n := |s| - |a|;
    var t := TrimEnd(a);
    assert Trim(s) == t;
    k := i - n;
    assert a[k] == s[i];
    assert t[k] == a[k];
  }

  /** Text holding a character that no numeric literal contains and that is not white space
      parses to null. */
  lemma {:induction false} NonNumericIsNull(s: string, i: nat)
    requires i < |s| && !IsLiteralChar(s[i]) && !IsWhiteSpace(s[i])
    ensures ParseAlbumId(s) == None
  {
    var k := TrimKeeps(s, i);
    NumberAlphabet(Trim(s));
  }

  /** Text that, once trimmed, starts with `-` is never a valid album id: it is null, a
      negative number, zero or minus infinity. */
  lemma {:induction false} NegativeNeverValid(s: string)
    requires Trim(s) != [] && Trim(s)[0] == '-'
    ensures !IsValidAlbumId(ParseAlbumId(s))
  {
    var t := Trim(s);
    assert ToNumber(t) == Negated(UnsignedDecimal(t[1..]));
  }

  /** For a SignedInteger, the input is a valid album id exactly when its value is positive. */
  lemma {:induction false} ValidAlbumIdExactly(s: string)
    requires IsNumeral(Trim(s))
    ensures IsValidAlbumId(ParseAlbumId(s)) <==> NumeralValue(Trim(s)) > 0
  {
  }

  /** An id written with a decimal fraction, `w.f`, parses to its exact value and is valid
      exactly when that value is positive. */
  lemma {:induction false} FractionalIdParse(w: string, f: string)
    requires |w| > 0 && AllDigits(w) && AllDigits(f)
    ensures var v := DigitsValue(w) as real + DigitsValue(f) as real / Pow10(|f|) as real;
      && ParseAlbumId(w + "." + f) == Some(Finite(v))
      && (IsValidAlbumId(ParseAlbumId(w + "." + f)) <==> v > 0.0)
  {
    var t := w + "." + f;
    FractionParts(w, f);
    assert t[0] == w[0];
    TrimOfTrimmed(t);
    FractionDecimal(w, f);
  }

  /** Text that neither starts nor ends with white space is its own trim. */
  lemma {:induction false} TrimOfTrimmed(s: string)
    requires s != [] ==> !IsWhiteSpace(s[0]) && !IsWhiteSpace(s[|s| - 1])
    ensures Trim(s) == s
  {
  }

  /** `parseAlbumId('  42 ')` is 42. */
  lemma {:induction false} ParseExampleNumber(s: string)
    requires s == "  42 "
    ensures ParseAlbumId(s) == Some(Finite(42.0))
  {
    assert DecimalString(42) == "42" by {
      assert DecimalString(4) == "4";
    }
    assert "  " + DecimalString(42) + " " == s;
    ParseDecimalRoundTrip("  ", 42, " ");
  }

  /** `Number('abc')` is NaN. */
  lemma {:induction false} NumberOfText()
    ensures ToNumber("abc") == NaN
  {
    assert UnsignedDecimal("abc") == NaN by {
      assert IndexOf("abc", 'e', 'E') == 3;
      assert "abc"[..3] == "abc";
      assert IndexOf("abc", '.', '.') == 3;
      assert !AllDigits("abc");
    }
  }

  /** `parseAlbumId('abc')` is null. */
  lemma {:induction false} ParseExampleText(s: string)
    requires s == "abc"
    ensures ParseAlbumId(s) == None
  {
    NumberOfText();
    TrimOfTrimmed(s);
  }

  /** `Number('1.5')` is 1.5. */
  lemma {:induction false} NumberOfFraction()
    ensures ToNumber("1.5") == Finite(1.5)
  {
    assert UnsignedDecimal("1.5") == Finite(1.5) by {
      assert IndexOf("1.5", 'e', 'E') == 3;
      assert "1.5"[..3] == "1.5";
      assert IndexOf("1.5", '.', '.') == 1;
      assert "1.5"[..1] == "1" && "1.5"[2..] == "5";
      assert DigitsValue("1") == 1 && DigitsValue("5") == 5;
    }
  }

  /** `parseAlbumId('1.5')` is 1.5, a valid album id. */
  lemma {:induction false} ParseExampleFraction(s: string)
    requires s == "1.5"
    ensures ParseAlbumId(s) == Some(Finite(1.5))
    ensures IsValidAlbumId(ParseAlbumId(s))
  {
    NumberOfFraction();
    TrimOfTrimmed(s);
  }

  /** `Number('0x1F')` is 31. */
  lemma {:induction false} NumberOfHex()
    ensures ToNumber("0x1F") == Finite(31.0)
  {
    assert "0x1F"[2..] == "1F";
    assert RadixValue("1F", 16) == 31 by {
      assert "1F"[..1] == "1";
    }
  }

  /** `parseAlbumId('0x1F')` is 31, a valid album id. */
  lemma {:induction false} ParseExampleHex(s: string)
    requires s == "0x1F"
    ensures ParseAlbumId(s) == Some(Finite(31.0))
    ensures IsValidAlbumId(ParseAlbumId(s))
  {
    NumberOfHex();
    TrimOfTrimmed(s);
  }

  /** `Number('1e3')` is 1000. */
  lemma {:induction false} NumberOfExponent()
    ensures ToNumber("1e3") == Finite(1000.0)
  {
    assert IndexOf("1e3", 'e', 'E') == 1;
    assert "1e3"[..1] == "1" && "1e3"[2..] == "3";
    assert IndexOf("1", '.', '.') == 1;
    assert DigitsValue("1") == 1 && NumeralValue("3") == 3;
    assert Pow10(3) == 1000;
  }

  /** `parseAlbumId('1e3')` is 1000, a valid album id. */
  lemma {:induction false} ParseExampleExponent(s: string)
    requires s == "1e3"
    ensures ParseAlbumId(s) == Some(Finite(1000.0))
    ensures IsValidAlbumId(ParseAlbumId(s))
  {
    NumberOfExponent();
    TrimOfTrimmed(s);
  }

  /** `Number('Infinity')` is positive infinity. */
  lemma {:induction false} NumberOfInfinity()
    ensures ToNumber("Infinity") == PositiveInfinity
  {
    assert UnsignedDecimal("Infinity") == PositiveInfinity;
  }

  /** `parseAlbumId('Infinity')` is Infinity, a valid album id. */
  lemma {:induction false} ParseExampleInfinity(s: string)
    requires s == "Infinity"
    ensures ParseAlbumId(s) == Some(PositiveInfinity)
    ensures IsValidAlbumId(ParseAlbumId(s))
  {
    NumberOfInfinity();
    TrimOfTrimmed(s);
  }

  /** `Number('-Infinity')` is negative infinity. */
  lemma {:induction false} NumberOfMinusInfinity()
    ensures ToNumber("-Infinity") == NegativeInfinity
  {
    assert "-Infinity"[1..] == "Infinity";
    assert UnsignedDecimal("Infinity") == PositiveInfinity;
  }

  /** `parseAlbumId('-Infinity')` is minus Infinity, which is not a valid album id. */
  lemma {:induction false} ParseExampleMinusInfinity(s: string)
    requires s == "-Infinity"
    ensures ParseAlbumId(s) == Some(NegativeInfinity)
    ensures !IsValidAlbumId(ParseAlbumId(s))
  {
    NumberOfMinusInfinity();
    TrimOfTrimmed(s);
  }
}
