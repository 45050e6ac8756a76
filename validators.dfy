/**
 * The four input validators of the store: whole-string integer parsing (the
 * `stoi` call and its consumed-length check), menu-number parsing, the
 * payment-amount pattern `^-?\d*\.?\d+$` as a hand-written recogniser, and
 * the yes/no token check.
 */
module Validators {
  import opened Wrappers

  /** Bounds of the 32-bit `int` that `stoi` returns. */
  const IntMin: int := -0x8000_0000
  const IntMax: int := 0x7fff_ffff

  predicate InIntRange(v: int) { IntMin <= v <= IntMax }

  /** The blank characters `isspace` recognises in the "C" locale. */
  predicate IsSpace(c: char) {
    c == ' ' || c == '\t' || c == '\n' || c == '\U{0B}' || c == '\U{0C}' || c == '\r'
  }

  predicate IsSign(c: char) { c == '+' || c == '-' }

  predicate IsDigit(c: char) { '0' <= c <= '9' }

  predicate AllDigits(d: string) { forall k :: 0 <= k < |d| ==> IsDigit(d[k]) }

  function DigitValue(c: char): nat
    requires IsDigit(c)
  {
    c as int - '0' as int
  }

  /** The number a run of decimal digits denotes, most significant digit first. */
  function DigitsValue(d: string): nat
    requires AllDigits(d)
  {
    if d == [] then 0 else 10 * DigitsValue(d[..|d| - 1]) + DigitValue(d[|d| - 1])
  }

  /** The first index at or after `i` that does not hold a blank. */
  function SkipSpaces(s: string, i: nat): (j: nat)
    requires i <= |s|
    ensures i <= j <= |s|
    ensures forall k :: i <= k < j ==> IsSpace(s[k])
    ensures j < |s| ==> !IsSpace(s[j])
    decreases |s| - i
  {
    if i < |s| && IsSpace(s[i]) then SkipSpaces(s, i + 1) else i
  }

  /** The end of the longest run of digits that starts at `i`. */
  function DigitsEnd(s: string, i: nat): (j: nat)
    requires i <= |s|
    ensures i <= j <= |s|
    ensures forall k :: i <= k < j ==> IsDigit(s[k])
    ensures j < |s| ==> !IsDigit(s[j])
    decreases |s| - i
  {
    if i < |s| && IsDigit(s[i]) then DigitsEnd(s, i + 1) else i
  }

  /** A run of blanks from `i` that stops at `e` (end of text or a non-blank) is the one skipped. */
  lemma SkipSpacesAt(s: string, i: nat, e: nat)
    requires i <= e <= |s|
    requires forall k :: i <= k < e ==> IsSpace(s[k])
    requires e < |s| ==> !IsSpace(s[e])
    ensures SkipSpaces(s, i) == e
  {
  }

  /** A run of digits from `i` that stops at `e` (end of text or a non-digit) is the longest one. */
  lemma DigitsEndAt(s: string, i: nat, e: nat)
    requires i <= e <= |s|
    requires forall k :: i <= k < e ==> IsDigit(s[k])
    requires e < |s| ==> !IsDigit(s[e])
    ensures DigitsEnd(s, i) == e
  {
  }

  // ---------------------------------------------------------------------
  // stoi and isValidInteger
  // ---------------------------------------------------------------------

  /** What `stoi(s, &pos)` does: a value and the number of characters consumed, or one of its two exceptions. */
  datatype StoiResult = Converted(value: int, consumed: nat) | InvalidArgument | OutOfRange

  /**
   * `stoi` in base 10: skip leading blanks, read an optional sign and the
   * longest run of digits after it. No digit at all is `invalid_argument`;
   * a value outside the 32-bit range is `out_of_range`.
   */
  function Stoi(s: string): (r: StoiResult)
    ensures r.Converted? ==> 0 < r.consumed <= |s| && InIntRange(r.value)
    ensures r.Converted? ==> IsDigit(s[r.consumed - 1])
    ensures r.Converted? && r.consumed < |s| ==> !IsDigit(s[r.consumed])
    ensures (forall k :: 0 <= k < |s| ==> !IsDigit(s[k])) ==> r == InvalidArgument
  {
    var a := SkipSpaces(s, 0);
    var b := if a < |s| && IsSign(s[a]) then a + 1 else a;
    var e := DigitsEnd(s, b);
    if e == b then InvalidArgument
    else
      var magnitude: int := DigitsValue(s[b..e]);
      var v := if b > a && s[a] == '-' then -magnitude else magnitude;
      if InIntRange(v) then Converted(v, e) else OutOfRange
  }

  /**
   * isValidInteger: the parsed value when `stoi` succeeds and consumed the
   * whole input, otherwise nothing (both exceptions are caught).
   */
  function IsValidInteger(s: string): (r: Option<int>)
    ensures r.Some? ==> s != [] && IsDigit(s[|s| - 1]) && InIntRange(r.value)
    ensures r.Some? ==> forall k :: 0 <= k < |s| ==> IsSpace(s[k]) || IsSign(s[k]) || IsDigit(s[k])
  {
    match Stoi(s)
    case Converted(v, pos) =>
      if pos == |s| then
        var a := SkipSpaces(s, 0);
        assert forall k :: a < k < |s| ==> IsDigit(s[k]) by {
          var b := if a < |s| && IsSign(s[a]) then a + 1 else a;
          assert DigitsEnd(s, b) == pos;
        }
        Some(v)
      else None
    case _ => None
  }

  /**
   * The text `isValidInteger` accepts, read off the shape of the string:
   * blanks in `s[..a]`, an optional sign at `a`, and only digits from `b` on.
   */
  ghost predicate IntegerText(s: string, a: nat, b: nat) {
    && a <= b < |s|
    && (forall k :: 0 <= k < a ==> IsSpace(s[k]))
    && (b == a || (b == a + 1 && IsSign(s[a])))
    && (forall k :: b <= k < |s| ==> IsDigit(s[k]))
  }

  ghost function TextValue(s: string, a: nat, b: nat): int
    requires IntegerText(s, a, b)
  {
    var magnitude: int := DigitsValue(s[b..]);
    if b > a && s[a] == '-' then -magnitude else magnitude
  }

  /** Every string of integer shape is accepted exactly when its value fits in an `int`. */
  lemma IntegerTextAccepted(s: string, a: nat, b: nat)
    requires IntegerText(s, a, b)
    ensures IsValidInteger(s) == if InIntRange(TextValue(s, a, b)) then Some(TextValue(s, a, b)) else None
  {
    SkipSpacesAt(s, 0, a);
    var b' := if a < |s| && IsSign(s[a]) then a + 1 else a;
    assert b' == b;
    DigitsEndAt(s, b, |s|);
    assert s[b..|s|] == s[b..];
  }

  /** Every accepted string has integer shape, and the result is its value. */
  lemma AcceptedIsIntegerText(s: string)
    requires IsValidInteger(s).Some?
    ensures exists a: nat, b: nat :: IntegerText(s, a, b) && TextValue(s, a, b) == IsValidInteger(s).value
  {
    var a := SkipSpaces(s, 0);
    var b := if a < |s| && IsSign(s[a]) then a + 1 else a;
    var e := DigitsEnd(s, b);
    assert Stoi(s).Converted? && Stoi(s).consumed == |s|;
    assert e == |s|;
    assert s[b..|s|] == s[b..];
    assert IntegerText(s, a, b);
  }

  /** A string with no digit in it is never an integer (`invalid_argument` is caught). */
  lemma IntegerNeedsDigit(s: string)
    requires forall k :: 0 <= k < |s| ==> !IsDigit(s[k])
    ensures IsValidInteger(s) == None
  {
  }

  /** Anything after the digits — a trailing blank, a letter, a dot — makes the parse partial. */
  lemma TrailingCharacterRejected(s: string, c: char)
    requires IsValidInteger(s).Some?
    ensures !IsDigit(c) ==> IsValidInteger(s + [c]) == None
  {
  }

  // ---------------------------------------------------------------------
  // Decimal text of a number: the reference against which both parsers are checked
  // ---------------------------------------------------------------------

  function DigitChar(d: nat): (c: char)
    requires d < 10
    ensures IsDigit(c) && DigitValue(c) == d
  {
    ('0' as int + d) as char
  }

  /** The shortest decimal digits of `n`, as `%d` prints a non-negative number. */
  function NatText(n: nat): (d: string)
    ensures d != [] && AllDigits(d)
  {
    if n < 10 then [DigitChar(n)] else NatText(n / 10) + [DigitChar(n % 10)]
  }

  lemma {:induction false} NatTextValue(n: nat)
    ensures DigitsValue(NatText(n)) == n
  {
    var d := NatText(n);
    if n >= 10 {
      NatTextValue(n / 10);
      assert d[..|d| - 1] == NatText(n / 10);
    } else {
      assert d[..|d| - 1] == [];
    }
  }

  /** The text `%d` prints for an integer: a minus sign for negatives, then the digits. */
  function IntText(v: int): string {
    if v < 0 then "-" + NatText(-v) else NatText(v)
  }

  /** What `%d` prints is integer-shaped text whose value is the number printed. */
  lemma IntTextShape(v: int) returns (b: nat)
    ensures IntegerText(IntText(v), 0, b) && TextValue(IntText(v), 0, b) == v
  {
    var s := IntText(v);
    if v < 0 {
      b := 1;
      assert s[1..] == NatText(-v);
      NatTextValue(-v);
    } else {
      b := 0;
      assert s[0..] == NatText(v);
      NatTextValue(v);
    }
  }

  /** Parsing what `%d` prints gives back the number, whenever it fits in an `int`. */
  lemma IntTextRoundTrip(v: int)
    requires InIntRange(v)
    ensures IsValidInteger(IntText(v)) == Some(v)
  {
    var b := IntTextShape(v);
    IntegerTextAccepted(IntText(v), 0, b);
  }

  /** A blank in front of integer-shaped text keeps its shape and its value. */
  lemma BlankPrefix(c: char, s: string, a: nat, b: nat)
    requires IsSpace(c) && IntegerText(s, a, b)
    ensures IntegerText([c] + s, a + 1, b + 1) && TextValue([c] + s, a + 1, b + 1) == TextValue(s, a, b)
  {
    var t := [c] + s;
    assert t[b + 1..] == s[b..];
    assert forall k :: 1 <= k < |t| ==> t[k] == s[k - 1];
  }

  /** `stoi` skips leading blanks, so a blank before the digits does not stop the parse. */
  lemma LeadingBlankAccepted(c: char, v: int)
    requires IsSpace(c) && InIntRange(v)
    ensures IsValidInteger([c] + IntText(v)) == Some(v)
  {
    var b := IntTextShape(v);
    BlankPrefix(c, IntText(v), 0, b);
    IntegerTextAccepted([c] + IntText(v), 1, b + 1);
  }

  /** One past the largest `int` raises `out_of_range`, which is caught. */
  lemma IntegerOverflowRejected(v: int)
    requires v > IntMax
    ensures IsValidInteger(NatText(v)) == None
  {
    var s := NatText(v);
    assert IntegerText(s, 0, 0);
    assert s[0..] == s;
    NatTextValue(v);
    IntegerTextAccepted(s, 0, 0);
  }

  // ---------------------------------------------------------------------
  // isValidMenuNumber
  // ---------------------------------------------------------------------

  /**
   * isValidMenuNumber: no space character anywhere, a whole-string integer,
   * and that integer within `[min, max]`.
   */
  function IsValidMenuNumber(s: string, min: int, max: int): (r: Option<int>)
    ensures ' ' in s ==> r == None
    ensures r.Some? <==> ' ' !in s && IsValidInteger(s).Some? && min <= IsValidInteger(s).value <= max
    ensures r.Some? ==> r == IsValidInteger(s) && min <= r.value <= max
  {
    if ' ' in s then None
    else match IsValidInteger(s)
      case Some(v) => if min <= v && v <= max then Some(v) else None
      case None => None
  }

  /** Only the space character is refused: a leading tab still parses, since `stoi` skips it. */
  lemma MenuNumberAcceptsLeadingTab(v: int, min: int, max: int)
    requires min <= v <= max && InIntRange(v)
    ensures IsValidMenuNumber(['\t'] + IntText(v), min, max) == Some(v)
  {
    LeadingBlankAccepted('\t', v);
    var s := ['\t'] + IntText(v);
    assert forall k :: 0 <= k < |s| ==> s[k] != ' ';
  }

  // ---------------------------------------------------------------------
  // isValidPayment: the pattern ^-?\d*\.?\d+$
  // ---------------------------------------------------------------------

  /** Length of the optional leading minus sign. */
  function SignLength(s: string): (n: nat)
    ensures n <= 1 && n <= |s|
  {
    if |s| > 0 && s[0] == '-' then 1 else 0
  }

  /**
   * The recogniser: an optional '-', then digits; either the digits run to
   * the end (and there is at least one), or they stop at a '.' that is
   * followed by one or more digits running to the end.
   */
  function IsValidPayment(s: string): (r: bool)
    ensures r ==> s != [] && IsDigit(s[|s| - 1])
  {
    var i := SignLength(s);
    var j := DigitsEnd(s, i);
    if j == |s| then j > i
    else s[j] == '.' && j + 1 < |s| && DigitsEnd(s, j + 1) == |s|
  }

  /**
   * What the regular expression means: the string is the concatenation of
   * `s[..a]` in {"", "-"}, digits `s[a..b]`, `s[b..c]` in {"", "."}, and one
   * or more digits `s[c..]`.
   */
  ghost predicate PatternSplit(s: string, a: nat, b: nat, c: nat) {
    && a <= b <= c < |s|
    && (a == 0 || (a == 1 && s[0] == '-'))
    && (forall k :: a <= k < b ==> IsDigit(s[k]))
    && (c == b || (c == b + 1 && s[b] == '.'))
    && (forall k :: c <= k < |s| ==> IsDigit(s[k]))
  }

  ghost predicate MatchesPattern(s: string) {
    exists a: nat, b: nat, c: nat :: PatternSplit(s, a, b, c)
  }

  /** The recogniser accepts exactly the strings the regular expression matches. */
  lemma PaymentRecogniserCorrect(s: string)
    ensures IsValidPayment(s) <==> MatchesPattern(s)
  {
    var i := SignLength(s);
    var j := DigitsEnd(s, i);
    if IsValidPayment(s) {
      if j == |s| {
        assert PatternSplit(s, i, j - 1, j - 1);
      } else {
        assert PatternSplit(s, i, j, j + 1);
      }
    }
    if MatchesPattern(s) {
      var a: nat, b: nat, c: nat :| PatternSplit(s, a, b, c);
      assert a == i;
      if c == b {
        assert j == |s|;
      } else {
        assert j == b;
        assert DigitsEnd(s, j + 1) == |s|;
      }
    }
  }

  /** Ten to the power `n`. */
  function Pow10(n: nat): (p: nat)
    ensures p >= 1
  {
    if n == 0 then 1 else 10 * Pow10(n - 1)
  }

  /** The value of the digits after a decimal point. */
  function Fraction(f: string): real
    requires AllDigits(f)
  {
    DigitsValue(f) as real / Pow10(|f|) as real
  }

  /** The number `stod` reads from an accepted payment string, taken exactly (no rounding). */
  function PaymentValue(s: string): (v: real)
    requires IsValidPayment(s)
    ensures s[0] == '-' ==> v <= 0.0
    ensures s[0] != '-' ==> v >= 0.0
  {
    var i := SignLength(s);
    var j := DigitsEnd(s, i);
    var whole := DigitsValue(s[i..j]) as real;
    var fraction := if j == |s| then 0.0 else Fraction(s[j + 1..]);
    if i == 1 then -(whole + fraction) else whole + fraction
  }

  /**
   * The value of any string the pattern matches, read off its split: the
   * digits alone, or the whole digits plus the fraction after the '.',
   * negated exactly when the string starts with '-'.
   */
  lemma PaymentValueOfSplit(s: string, a: nat, b: nat, c: nat)
    requires PatternSplit(s, a, b, c)
    ensures IsValidPayment(s)
    ensures c == b ==> AllDigits(s[a..])
    ensures AllDigits(s[a..b]) && AllDigits(s[c..])
    ensures c == b ==> PaymentValue(s) == (if a == 1 then -1.0 else 1.0) * DigitsValue(s[a..]) as real
    ensures c != b ==> PaymentValue(s) == (if a == 1 then -1.0 else 1.0) * (DigitsValue(s[a..b]) as real + Fraction(s[c..]))
  {
    PaymentRecogniserCorrect(s);
    assert SignLength(s) == a;
    if c == b {
      DigitsEndAt(s, a, |s|);
      assert s[a..|s|] == s[a..];
    } else {
      DigitsEndAt(s, a, b);
    }
  }

  /** A minus sign, digits, a dot and more digits read as minus the whole part plus the fraction. */
  lemma NegativeDecimalPayment(d: string, f: string)
    requires AllDigits(d) && AllDigits(f) && f != []
    ensures IsValidPayment("-" + d + "." + f)
    ensures PaymentValue("-" + d + "." + f) == -(DigitsValue(d) as real + Fraction(f))
  {
    var s := "-" + d + "." + f;
    var b := |d| + 1;
    assert s[b] == '.';
    assert forall k :: 1 <= k < b ==> s[k] == d[k - 1];
    assert forall k :: b + 1 <= k < |s| ==> s[k] == f[k - b - 1];
    PaymentValueOfSplit(s, 1, b, b + 1);
    assert s[1..b] == d;
    assert s[b + 1..] == f;
  }

  /** "-3.0", one of the accepted amounts, reads as -3. */
  lemma NegativeWholeWithFraction()
    ensures IsValidPayment("-3.0") && PaymentValue("-3.0") == -3.0
  {
    NegativeDecimalPayment("3", "0");
    assert "-" + "3" + "." + "0" == "-3.0";
    assert "3"[..0] == [] && "0"[..0] == [];
  }

  /** "-12.5" reads as -12.5. */
  lemma NegativeDecimalExample()
    ensures IsValidPayment("-12.5") && PaymentValue("-12.5") == -12.5
  {
    NegativeDecimalPayment("12", "5");
    assert "-" + "12" + "." + "5" == "-12.5";
    assert "12"[..1] == "1" && "1"[..0] == [] && "5"[..0] == [];
  }

  /** Without a leading minus sign an amount is never negative. */
  lemma UnsignedPaymentNonNegative(s: string)
    requires IsValidPayment(s) && s[0] != '-'
    ensures PaymentValue(s) >= 0.0
  {
  }

  /** A whole number printed with `%d` reads back as itself, with or without a minus sign. */
  lemma PaymentWholeRoundTrip(n: nat)
    ensures IsValidPayment(NatText(n)) && PaymentValue(NatText(n)) == n as real
    ensures IsValidPayment("-" + NatText(n)) && PaymentValue("-" + NatText(n)) == -(n as real)
  {
    var d := NatText(n);
    NatTextValue(n);
    assert DigitsEnd(d, 0) == |d|;
    assert d[0..|d|] == d;
    var m := "-" + d;
    assert DigitsEnd(m, 1) == |m|;
    assert m[1..|m|] == d;
  }

  /** Digits, a dot and more digits read as the whole part plus the fraction. */
  lemma DecimalPayment(d: string, f: string)
    requires AllDigits(d) && AllDigits(f) && f != []
    ensures IsValidPayment(d + "." + f)
    ensures PaymentValue(d + "." + f) == DigitsValue(d) as real + Fraction(f)
  {
    var s := d + "." + f;
    assert SignLength(s) == 0 by {
      if d == [] { assert s[0] == '.'; } else { assert s[0] == d[0]; }
    }
    assert s[|d|] == '.';
    assert DigitsEnd(s, 0) == |d| by {
      assert forall k :: 0 <= k < |d| ==> s[k] == d[k];
      DigitsEndAt(s, 0, |d|);
    }
    assert DigitsEnd(s, |d| + 1) == |s| by {
      assert forall k :: |d| < k < |s| ==> s[k] == f[k - |d| - 1];
      DigitsEndAt(s, |d| + 1, |s|);
    }
    assert s[0..|d|] == d;
    assert s[|d| + 1..] == f;
  }

  /** An amount written with a whole part and a two-digit fraction reads as whole + cents/100. */
  lemma PaymentCentsRoundTrip(n: nat, cents: nat)
    requires cents < 100
    ensures var s := NatText(n) + "." + [DigitChar(cents / 10), DigitChar(cents % 10)];
            IsValidPayment(s) && PaymentValue(s) == n as real + cents as real / 100.0
  {
    var f := [DigitChar(cents / 10), DigitChar(cents % 10)];
    NatTextValue(n);
    DecimalPayment(NatText(n), f);
    assert f[..1] == [DigitChar(cents / 10)];
    assert f[..1][..0] == [];
    assert DigitsValue(f[..1]) == cents / 10;
    assert DigitsValue(f) == cents;
    assert Pow10(2) == 100;
    assert Fraction(f) == cents as real / 100.0;
  }

  // ---------------------------------------------------------------------
  // isValidChoice
  // ---------------------------------------------------------------------

  /** isValidChoice: exactly the four one-letter answers y, Y, n and N. */
  function IsValidChoice(s: string): (r: bool)
    ensures r <==> |s| == 1 && s[0] in {'y', 'Y', 'n', 'N'}
  {
    s == "y" || s == "Y" || s == "n" || s == "N"
  }

  /** The answers that confirm a checkout. */
  predicate IsConfirmation(s: string): (r: bool)
    ensures r ==> IsValidChoice(s)
    ensures r <==> |s| == 1 && s[0] in {'y', 'Y'}
  {
    s == "Y" || s == "y"
  }

  /** Concrete answers: words are refused even when they start with a valid letter. */
  lemma ChoiceExamples()
    ensures IsValidChoice("y") && IsValidChoice("N")
    ensures !IsValidChoice("yes") && !IsValidChoice("Yes") && !IsValidChoice("") && !IsValidChoice(" y")
  {
  }

  /** Concrete amounts the pattern is meant to accept. */
  lemma PaymentAcceptedExamples()
    ensures IsValidPayment("12") && IsValidPayment("12.5") && IsValidPayment("-3.0") && IsValidPayment(".5")
  {
  }

  /** Concrete amounts the pattern is meant to refuse: a bare sign or dot, a trailing dot, two dots, letters, a plus sign. */
  lemma PaymentRefusedExamples()
    ensures !IsValidPayment("") && !IsValidPayment("-") && !IsValidPayment(".") && !IsValidPayment("12.")
    ensures !IsValidPayment("12.5.3") && !IsValidPayment("abc") && !IsValidPayment("+5")
  {
  }

  /** Concrete integers: a leading blank is skipped, a trailing one is not. */
  lemma IntegerExamples()
    ensures IsValidInteger("42") == Some(42) && IsValidInteger("-7") == Some(-7)
    ensures IsValidInteger(" 5") == Some(5) && IsValidInteger("5 ") == None
  {
    assert IntText(42) == "42" by {
      assert NatText(42) == NatText(4) + [DigitChar(2)];
    }
    IntTextRoundTrip(42);
    assert IntText(-7) == "-7";
    IntTextRoundTrip(-7);
    assert IntText(5) == "5";
    LeadingBlankAccepted(' ', 5);
    assert [' '] + "5" == " 5";
    IntTextRoundTrip(5);
    TrailingCharacterRejected("5", ' ');
    assert "5" + [' '] == "5 ";
  }

  /** Concrete rejections: empty text, letters, and digits followed by letters. */
  lemma IntegerRejectionExamples()
    ensures IsValidInteger("") == None && IsValidInteger("abc") == None && IsValidInteger("12abc") == None
  {
  }
}
