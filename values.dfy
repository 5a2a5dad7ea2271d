/** PHP values as the query layer sees them, the casts it applies to them,
    and the few string functions (strtolower, strtoupper, explode, implode,
    integer printing) that the clause builders use. */
module Values {

  /** A PHP value. Arrays that the query layer receives as values are lists;
      ObjectId is the document store's identifier object wrapped around the
      value it was built from. */
  datatype Value =
    | Null
    | Bool(b: bool)
    | Int(i: int)
    | Str(s: string)
    | List(elems: seq<Value>)
    | ObjectId(of: Value)

  /** The exceptions the layer throws, one constructor per message kind. */
  datatype Error =
    | NotStringOrArray        // search(x) with x neither a string nor an array
    | ArrayExpected           // old search(x) with x not an array
    | InvalidOperator         // operator outside the accepted list
    | InNeedsArray            // 'in' / 'not in' with a non-array value
    | BadArgumentCount        // search() with 2 or more than 3 arguments
    | NoSearchToExtend        // orSearch() without a non-empty last group
    | InvalidJoin             // join() with an empty field part
    | SearchNotCalled         // fluent call before search()
    | NotCallable             // filter()/validate() with a non-callable
    | InvalidSortOrder        // sort order other than asc/desc
    | InvalidSearchParameter  // old search entry whose field is neither string nor array
    | AmbiguousAlias          // alias already set in a row
    | ForbiddenSaveOperator   // save() over a non-'is' search
    | MatchDisabled           // SQLite: 'match' / 'not match'
    | IllegalOffset           // an array or object used as an array key
    | TypeError               // a non-array where the code declares `array`
    | FieldNotString          // having() with a field that is not a string
    | OperatorNotString       // having() with an operator that is not a string
    | UndefinedConstant       // a bare name PHP 8 reads as an undefined constant

  datatype Result<T> = Ok(value: T) | Err(error: Error)

  datatype Option<T> = None | Some(value: T)

  /** The outcome of a call made for its effect: it returned or it threw. */
  datatype Outcome = Pass | Fail(error: Error)

  /** PHP truthiness. */
  predicate Truthy(v: Value) {
    match v
    case Null => false
    case Bool(b) => b
    case Int(i) => i != 0
    case Str(s) => s != "" && s != "0"
    case List(xs) => |xs| > 0
    case ObjectId(_) => true
  }

  function Digit(d: nat): (c: char)
    requires d < 10
    ensures '0' <= c <= '9' && c as int - '0' as int == d
  {
    ('0' as int + d) as char
  }

  /** Decimal digits of a natural number, without leading zeros. */
  function NatToStr(n: nat): (s: string)
    ensures |s| >= 1
    ensures forall k :: 0 <= k < |s| ==> '0' <= s[k] <= '9'
  {
    if n < 10 then [Digit(n)] else NatToStr(n / 10) + [Digit(n % 10)]
  }

  /** PHP's decimal rendering of an integer. */
  function IntToStr(i: int): string {
    if i < 0 then "-" + NatToStr(-i) else NatToStr(i)
  }

  /** Distinct numbers print differently: the basis of unique markers. */
  lemma {:induction false} NatToStrInjective(a: nat, b: nat)
    requires NatToStr(a) == NatToStr(b)
    ensures a == b
  {
    if a < 10 && b < 10 {
      assert NatToStr(a)[0] == Digit(a) && NatToStr(b)[0] == Digit(b);
    } else if a >= 10 && b >= 10 {
      var sa, sb := NatToStr(a / 10), NatToStr(b / 10);
      assert sa + [Digit(a % 10)] == sb + [Digit(b % 10)];
      assert |sa| == |sb|;
      assert sa == (sa + [Digit(a % 10)])[..|sa|];
      assert sb == (sb + [Digit(b % 10)])[..|sb|];
      assert Digit(a % 10) == Digit(b % 10);
      NatToStrInjective(a / 10, b / 10);
    }
  }

  /** PHP's (string) cast. */
  function ToStr(v: Value): string {
    match v
    case Null => ""
    case Bool(b) => if b then "1" else ""
    case Int(i) => IntToStr(i)
    case Str(s) => s
    case List(_) => "Array"
    case ObjectId(of) => ToStr(of)
  }

  predicate IsDigit(c: char) { '0' <= c <= '9' }

  /** Value of the longest run of leading digits of s. */
  function LeadingDigits(s: string, acc: nat): nat
    decreases |s|
  {
    if |s| > 0 && IsDigit(s[0])
    then LeadingDigits(s[1..], acc * 10 + (s[0] as int - '0' as int))
    else acc
  }

  /** The optionally signed run of leading digits of s, with nothing
      skipped: how PHP reads back the integer a canonical array key names. */
  function DecimalPrefix(s: string): int {
    if |s| > 0 && s[0] == '-' then 0 - LeadingDigits(s[1..], 0) as int
    else if |s| > 0 && s[0] == '+' then LeadingDigits(s[1..], 0)
    else LeadingDigits(s, 0)
  }

  /** The whitespace a numeric string may start with. */
  predicate IsSpace(c: char) {
    c == ' ' || c == '\t' || c == '\n' || c == '\r' || c == 11 as char || c == 12 as char
  }

  function SkipSpaces(s: string): (r: string)
    ensures |r| == 0 || !IsSpace(r[0])
    decreases |s|
  {
    if |s| > 0 && IsSpace(s[0]) then SkipSpaces(s[1..]) else s
  }

  /** The length of the run of leading digits. */
  function DigitRun(s: string): (n: nat)
    ensures n <= |s| && (n == |s| || !IsDigit(s[n]))
    ensures forall k :: 0 <= k < n ==> IsDigit(s[k])
    decreases |s|
  {
    if |s| > 0 && IsDigit(s[0]) then 1 + DigitRun(s[1..]) else 0
  }

  function Pow10(e: nat): (r: nat)
    ensures r >= 1
  {
    if e == 0 then 1 else 10 * Pow10(e - 1)
  }

  /** The exponent part that may follow a mantissa: 'e' or 'E', an optional
      sign and at least one digit; 0 when there is none. */
  function Exponent(s: string): int {
    if |s| > 0 && (s[0] == 'e' || s[0] == 'E') then
      var t := s[1..];
      var neg := |t| > 0 && t[0] == '-';
      var u := if |t| > 0 && (t[0] == '-' || t[0] == '+') then t[1..] else t;
      if DigitRun(u) == 0 then 0
      else if neg then 0 - LeadingDigits(u, 0) as int
      else LeadingDigits(u, 0)
    else 0
  }

  /** A mantissa scaled by a power of ten, truncated toward zero. */
  function Scaled(mant: nat, scale: int): nat {
    if scale >= 0 then ShiftUp(mant, scale) else ShiftDown(mant, -scale)
  }

  /** m without its last e decimal digits. */
  function ShiftDown(m: nat, e: nat): nat {
    if e == 0 then m else ShiftDown(m / 10, e - 1)
  }

  function ShiftUp(m: nat, e: nat): (r: nat)
    ensures r == m * Pow10(e)
  {
    if e == 0 then m else 10 * ShiftUp(m, e - 1)
  }

  /** The fraction digits of s when s starts with '.', and what follows
      them. */
  function FractionOf(s: string): (r: (string, string))
    ensures r.0 + r.1 == (if |s| > 0 && s[0] == '.' then s[1..] else s)
    ensures forall k :: 0 <= k < |r.0| ==> IsDigit(r.0[k])
  {
    if |s| > 0 && s[0] == '.' then
      var f := DigitRun(s[1..]);
      assert s[1..][..f] + s[1..][f..] == s[1..];
      (s[1..][..f], s[1..][f..])
    else ("", s)
  }

  /** The unsigned number at the start of s — digits, an optional '.' and
      fraction digits, an optional exponent — truncated toward zero. No
      digit at all reads as 0. */
  function Magnitude(s: string): nat {
    var n := DigitRun(s);
    NumberOf(s[..n], FractionOf(s[n..]))
  }

  /** The number with integer digits ds and the fraction digits and the
      text after them fa. */
  function NumberOf(ds: string, fa: (string, string)): nat {
    Scaled(LeadingDigits(ds + fa.0, 0), Exponent(fa.1) - |fa.0|)
  }

  /** PHP's (int) cast. A string is read as the number it starts with,
      after any leading whitespace: an optional sign, then digits with an
      optional fraction and exponent, truncated toward zero; a string that
      starts with no number gives 0. */
  function ToInt(v: Value): int {
    match v
    case Null => 0
    case Bool(b) => if b then 1 else 0
    case Int(i) => i
    case Str(s) =>
      var t := SkipSpaces(s);
      if |t| > 0 && t[0] == '-' then 0 - Magnitude(t[1..]) as int
      else if |t| > 0 && t[0] == '+' then Magnitude(t[1..])
      else Magnitude(t)
    case List(xs) => if |xs| == 0 then 0 else 1
    case ObjectId(_) => 1
  }

  lemma {:induction false} LeadingDigitsSnoc(s: string, c: char, acc: nat)
    requires forall k :: 0 <= k < |s| ==> IsDigit(s[k])
    requires IsDigit(c)
    ensures LeadingDigits(s + [c], acc) == LeadingDigits(s, acc) * 10 + (c as int - '0' as int)
    decreases |s|
  {
    if |s| > 0 {
      assert (s + [c])[1..] == s[1..] + [c];
      LeadingDigitsSnoc(s[1..], c, acc * 10 + (s[0] as int - '0' as int));
    }
  }

  lemma {:induction false} LeadingDigitsNatToStr(n: nat)
    ensures LeadingDigits(NatToStr(n), 0) == n
  {
    if n >= 10 {
      LeadingDigitsNatToStr(n / 10);
      LeadingDigitsSnoc(NatToStr(n / 10), Digit(n % 10), 0);
    } else {
      assert NatToStr(n) == [Digit(n)];
    }
  }

  /** The decimal prefix reads back the text of every integer. */
  lemma DecimalPrefixIntToStr(i: int)
    ensures DecimalPrefix(IntToStr(i)) == i
  {
    if i < 0 {
      var t := "-" + NatToStr(-i);
      assert t[0] == '-' && t[1..] == NatToStr(-i);
      LeadingDigitsNatToStr(-i);
    } else {
      var t := NatToStr(i);
      assert IsDigit(t[0]);
      LeadingDigitsNatToStr(i);
    }
  }

  /** A string of digits alone is read as its decimal value. */
  lemma MagnitudeDigits(d: string)
    requires forall k :: 0 <= k < |d| ==> IsDigit(d[k])
    ensures Magnitude(d) == LeadingDigits(d, 0)
  {
    DigitRunAll(d);
    assert d[..|d|] + "" == d;
  }

  lemma {:induction false} DigitRunAll(d: string)
    requires forall k :: 0 <= k < |d| ==> IsDigit(d[k])
    ensures DigitRun(d) == |d|
    decreases |d|
  {
    if |d| > 0 {
      DigitRunAll(d[1..]);
    }
  }

  /** The (int) cast reads back the decimal text of every integer. */
  lemma ToIntIntToStr(i: int)
    ensures ToInt(Str(IntToStr(i))) == i
  {
    var n: nat := if i < 0 then -i else i;
    var d := NatToStr(n);
    assert !IsSpace(IntToStr(i)[0]);
    MagnitudeDigits(d);
    LeadingDigitsNatToStr(n);
    if i < 0 {
      assert IntToStr(i)[1..] == d;
    } else {
      assert IsDigit(d[0]);
    }
  }

  /** Leading whitespace is skipped, so " 5" reads as 5. */
  lemma ToIntSkipsSpaces(ws: string, s: string)
    requires forall k :: 0 <= k < |ws| ==> IsSpace(ws[k])
    ensures ToInt(Str(ws + s)) == ToInt(Str(s))
  {
    SkipSpacesPrefix(ws, s);
  }

  lemma {:induction false} SkipSpacesPrefix(ws: string, s: string)
    requires forall k :: 0 <= k < |ws| ==> IsSpace(ws[k])
    ensures SkipSpaces(ws + s) == SkipSpaces(s)
    decreases |ws|
  {
    if |ws| > 0 {
      var t := ws + s;
      assert t[0] == ws[0] && IsSpace(t[0]) && t[1..] == ws[1..] + s;
      assert SkipSpaces(t) == SkipSpaces(t[1..]);
      SkipSpacesPrefix(ws[1..], s);
    } else {
      assert ws + s == s;
    }
  }

  /** Appending a digit to a run of digits shifts its value by one place. */
  lemma {:induction false} LeadingDigitsAcc(d: string, acc: nat)
    requires forall k :: 0 <= k < |d| ==> IsDigit(d[k])
    ensures LeadingDigits(d, acc) == acc * Pow10(|d|) + LeadingDigits(d, 0)
    decreases |d|
  {
    if |d| > 0 {
      var x := d[0] as int - '0' as int;
      LeadingDigitsAcc(d[1..], acc * 10 + x);
      LeadingDigitsAcc(d[1..], x);
      calc {
        LeadingDigits(d, acc);
        (acc * 10 + x) * Pow10(|d| - 1) + LeadingDigits(d[1..], 0);
        { assert (acc * 10 + x) * Pow10(|d| - 1) == acc * (10 * Pow10(|d| - 1)) + x * Pow10(|d| - 1); }
        acc * Pow10(|d|) + (x * Pow10(|d| - 1) + LeadingDigits(d[1..], 0));
      }
    }
  }

  /** The digits of a + b read as those of a shifted past those of b. */
  lemma {:induction false} LeadingDigitsConcat(a: string, b: string, acc: nat)
    requires forall k :: 0 <= k < |a| ==> IsDigit(a[k])
    requires forall k :: 0 <= k < |b| ==> IsDigit(b[k])
    ensures LeadingDigits(a + b, acc) == LeadingDigits(a, acc) * Pow10(|b|) + LeadingDigits(b, 0)
    decreases |a|
  {
    if |a| > 0 {
      assert (a + b)[0] == a[0] && (a + b)[1..] == a[1..] + b;
      LeadingDigitsConcat(a[1..], b, acc * 10 + (a[0] as int - '0' as int));
    } else {
      assert a + b == b;
      LeadingDigitsAcc(b, acc);
    }
  }

  /** n digits are worth less than 10^n. */
  lemma {:induction false} LeadingDigitsBound(d: string)
    requires forall k :: 0 <= k < |d| ==> IsDigit(d[k])
    ensures LeadingDigits(d, 0) < Pow10(|d|)
    decreases |d|
  {
    if |d| > 0 {
      var init := d[..|d| - 1];
      assert init + [d[|d| - 1]] == d;
      LeadingDigitsBound(init);
      LeadingDigitsSnoc(init, d[|d| - 1], 0);
    }
  }

  /** A string starting with a digit is read as its unsigned number, and
      with a minus sign before it as that number negated. */
  lemma ToIntUnsigned(s: string)
    requires |s| > 0 && IsDigit(s[0])
    ensures ToInt(Str(s)) == Magnitude(s)
    ensures ToInt(Str("-" + s)) == 0 - Magnitude(s) as int
  {
    ToIntNoSpaces(s);
    ToIntNoSpaces("-" + s);
    assert ("-" + s)[1..] == s;
  }

  lemma ToIntNoSpaces(s: string)
    requires |s| > 0 && !IsSpace(s[0])
    ensures ToInt(Str(s)) == (if s[0] == '-' then 0 - Magnitude(s[1..]) as int
                              else if s[0] == '+' then Magnitude(s[1..]) else Magnitude(s))
  {
    assert SkipSpaces(s) == s;
  }

  lemma MagnitudeSplit(d: string, rest: string)
    requires forall k :: 0 <= k < |d| ==> IsDigit(d[k])
    requires |rest| == 0 || !IsDigit(rest[0])
    ensures Magnitude(d + rest) == NumberOf(d, FractionOf(rest))
  {
    DigitRunConcat(d, rest);
    assert (d + rest)[..|d|] == d && (d + rest)[|d|..] == rest;
  }

  lemma FractionOfDot(f: string)
    requires forall k :: 0 <= k < |f| ==> IsDigit(f[k])
    ensures FractionOf("." + f) == (f, "")
  {
    var s := "." + f;
    assert s[1..] == f;
    DigitRunAll(f);
    assert f[..|f|] == f && f[|f|..] == "";
  }

  lemma ExponentOf(x: string)
    requires |x| > 0 && forall k :: 0 <= k < |x| ==> IsDigit(x[k])
    ensures Exponent("e" + x) == LeadingDigits(x, 0)
    ensures Exponent("e-" + x) == 0 - LeadingDigits(x, 0) as int
  {
    assert ("e" + x)[1..] == x && !(x[0] == '-' || x[0] == '+');
    assert ("e-" + x)[1..] == "-" + x && ("-" + x)[1..] == x;
  }

  /** Dropping the digits of f from the end of d + f leaves d. */
  lemma {:induction false} ShiftDownDigits(d: string, f: string)
    requires forall k :: 0 <= k < |d| ==> IsDigit(d[k])
    requires forall k :: 0 <= k < |f| ==> IsDigit(f[k])
    ensures ShiftDown(LeadingDigits(d + f, 0), |f|) == LeadingDigits(d, 0)
    decreases |f|
  {
    if |f| == 0 {
      assert d + f == d;
    } else {
      var c := f[0];
      var x := d + [c];
      assert d + f == x + f[1..];
      ShiftDownDigits(x, f[1..]);
      LeadingDigitsSnoc(d, c, 0);
      // the first division by ten already removes c
      ShiftDownLast(LeadingDigits(d + f, 0), |f| - 1);
      LeadingDigitsConcat(x, f[1..], 0);
      LeadingDigitsConcat(d, f, 0);
    }
  }

  lemma {:induction false} ShiftDownLast(m: nat, e: nat)
    ensures ShiftDown(m, e + 1) == ShiftDown(m, e) / 10
    decreases e
  {
    if e > 0 {
      ShiftDownLast(m / 10, e - 1);
    }
  }

  /** A fraction is cut off: "1.9" reads as 1 and "-7.5" as -7. */
  lemma ToIntTruncates(d: string, f: string)
    requires |d| > 0 && forall k :: 0 <= k < |d| ==> IsDigit(d[k])
    requires forall k :: 0 <= k < |f| ==> IsDigit(f[k])
    ensures ToInt(Str(d + "." + f)) == LeadingDigits(d, 0)
    ensures ToInt(Str("-" + (d + "." + f))) == 0 - LeadingDigits(d, 0) as int
  {
    var s := d + ("." + f);
    assert d + "." + f == s && s[0] == d[0];
    ToIntUnsigned(s);
    MagnitudeSplit(d, "." + f);
    FractionOfDot(f);
    assert Exponent("") == 0;
    ShiftDownDigits(d, f);
  }

  lemma {:induction false} DigitRunConcat(a: string, b: string)
    requires forall k :: 0 <= k < |a| ==> IsDigit(a[k])
    requires |b| == 0 || !IsDigit(b[0])
    ensures DigitRun(a + b) == |a|
    decreases |a|
  {
    if |a| > 0 {
      assert (a + b)[1..] == a[1..] + b;
      DigitRunConcat(a[1..], b);
    } else {
      assert a + b == b;
    }
  }

  /** Digits followed by an exponent part: the digits scaled by it. */
  lemma ToIntScaled(d: string, after: string)
    requires |d| > 0 && forall k :: 0 <= k < |d| ==> IsDigit(d[k])
    requires |after| > 0 && (after[0] == 'e' || after[0] == 'E')
    ensures ToInt(Str(d + after)) == Scaled(LeadingDigits(d, 0), Exponent(after))
  {
    var s := d + after;
    assert s[0] == d[0];
    ToIntUnsigned(s);
    MagnitudeSplit(d, after);
    assert FractionOf(after) == ("", after);
    NumberOfWhole(d, after);
  }

  /** Digits followed by a character that cannot continue a number: the
      digits alone, as "12abc" reads as 12. */
  lemma ToIntStopsAt(d: string, rest: string)
    requires |d| > 0 && forall k :: 0 <= k < |d| ==> IsDigit(d[k])
    requires |rest| > 0 && !IsDigit(rest[0]) && rest[0] != '.' && rest[0] != 'e' && rest[0] != 'E'
    ensures ToInt(Str(d + rest)) == LeadingDigits(d, 0)
  {
    var s := d + rest;
    assert s[0] == d[0];
    ToIntUnsigned(s);
    MagnitudeSplit(d, rest);
    assert FractionOf(rest) == ("", rest) && Exponent(rest) == 0;
    NumberOfWhole(d, rest);
  }

  /** Text that does not start like a number reads as 0, as "abc" does. */
  lemma ToIntNoNumber(s: string)
    requires |s| > 0 && !IsSpace(s[0]) && !IsDigit(s[0])
    requires s[0] != '-' && s[0] != '+' && s[0] != '.'
    ensures ToInt(Str(s)) == 0
  {
    assert SkipSpaces(s) == s && DigitRun(s) == 0;
    assert s[..0] == "" && s[0..] == s && FractionOf(s) == ("", s);
    NumberOfWhole("", s);
    ScaledZero(Exponent(s));
  }

  lemma ScaledZero(e: int)
    ensures Scaled(0, e) == 0
  {
    if e < 0 {
      ShiftDownZero(0 - e);
    }
  }

  lemma {:induction false} ShiftDownZero(e: nat)
    ensures ShiftDown(0, e) == 0
  {
    if e > 0 {
      ShiftDownZero(e - 1);
    }
  }

  lemma NumberOfWhole(d: string, after: string)
    ensures NumberOf(d, ("", after)) == Scaled(LeadingDigits(d, 0), Exponent(after))
  {
    assert d + "" == d;
  }

  /** Exponent notation is read: "1e3" is 1000 and "15e-1" is 1. */
  lemma ToIntExponent(d: string, x: string)
    requires |d| > 0 && forall k :: 0 <= k < |d| ==> IsDigit(d[k])
    requires |x| > 0 && forall k :: 0 <= k < |x| ==> IsDigit(x[k])
    ensures ToInt(Str(d + "e" + x)) == LeadingDigits(d, 0) * Pow10(LeadingDigits(x, 0))
    ensures ToInt(Str(d + "e-" + x)) == ShiftDown(LeadingDigits(d, 0), LeadingDigits(x, 0))
  {
    ExponentOf(x);
    ToIntScaled(d, "e" + x);
    ToIntScaled(d, "e-" + x);
    ScaledBy(LeadingDigits(d, 0), LeadingDigits(x, 0));
    assert d + "e" + x == d + ("e" + x) && d + "e-" + x == d + ("e-" + x);
  }

  lemma ScaledBy(m: nat, k: nat)
    ensures Scaled(m, k) == m * Pow10(k) && Scaled(m, 0 - k) == ShiftDown(m, k)
  {
  }

  /** $v == $w under PHP 8's loose comparison, for a string w that is not
      numeric: an integer is compared as its decimal text, a boolean with the
      string's truthiness, null with the empty string, an object through its
      string form, and an array is never equal to a string. */
  predicate LooseEqualsWord(v: Value, w: string) {
    match v
    case Null => w == ""
    case Bool(b) => b == Truthy(Str(w))
    case Int(i) => IntToStr(i) == w
    case Str(s) => s == w
    case List(_) => false
    case ObjectId(of) => ToStr(of) == w
  }

  function LowerChar(c: char): char {
    if 'A' <= c <= 'Z' then (c as int + 32) as char else c
  }

  function UpperChar(c: char): char {
    if 'a' <= c <= 'z' then (c as int - 32) as char else c
  }

  /** strtolower on ASCII letters. */
  function Lower(s: string): (r: string)
    ensures |r| == |s|
    ensures forall k :: 0 <= k < |s| ==> r[k] == LowerChar(s[k])
  {
    seq(|s|, k requires 0 <= k < |s| => LowerChar(s[k]))
  }

  /** strtoupper on ASCII letters. */
  function Upper(s: string): (r: string)
    ensures |r| == |s|
    ensures forall k :: 0 <= k < |s| ==> r[k] == UpperChar(s[k])
  {
    seq(|s|, k requires 0 <= k < |s| => UpperChar(s[k]))
  }

  /** implode(sep, pieces). */
  function Join(sep: string, pieces: seq<string>): string
    decreases |pieces|
  {
    if |pieces| == 0 then ""
    else if |pieces| == 1 then pieces[0]
    else pieces[0] + sep + Join(sep, pieces[1..])
  }

  /** Regrouping a concatenation of three sequences. */
  lemma SeqAssoc<T>(a: seq<T>, b: seq<T>, c: seq<T>)
    ensures a + b + c == a + (b + c)
  {
  }

  /** A loop over a sequence that can fail: f applied to each element in
      turn, the results kept in order, the first failure ending it. */
  function MapAll<T, U>(xs: seq<T>, f: T -> Result<U>): Result<seq<U>>
    decreases |xs|
  {
    if |xs| == 0 then Ok([])
    else
      match MapAll(xs[..|xs| - 1], f)
      case Err(e) => Err(e)
      case Ok(p) =>
        match f(xs[|xs| - 1])
        case Err(e) => Err(e)
        case Ok(y) => Ok(p + [y])
  }

  /** The loop succeeds exactly when every element does, and then holds
      each element's result in order; a failure is some element's. */
  lemma {:induction false} MapAllSpec<T, U>(xs: seq<T>, f: T -> Result<U>)
    ensures var r := MapAll(xs, f);
      && (r.Ok? <==> forall j :: 0 <= j < |xs| ==> f(xs[j]).Ok?)
      && (r.Ok? ==> |r.value| == |xs| && forall j :: 0 <= j < |xs| ==> Ok(r.value[j]) == f(xs[j]))
      && (r.Err? ==> exists j :: 0 <= j < |xs| && f(xs[j]) == Err(r.error))
    decreases |xs|
  {
    if |xs| > 0 {
      var n := |xs|;
      var init := xs[..n - 1];
      MapAllSpec(init, f);
      assert forall j :: 0 <= j < |init| ==> init[j] == xs[j];
      var p := MapAll(init, f);
      if p.Ok? {
        var y := f(xs[n - 1]);
        if y.Ok? {
          var r := p.value + [y.value];
          assert MapAll(xs, f) == Ok(r);
          assert forall j :: 0 <= j < n - 1 ==> r[j] == p.value[j];
        }
      }
    }
  }

  /** The error reported is the first failing element's. */
  lemma {:induction false} MapAllFirstError<T, U>(xs: seq<T>, f: T -> Result<U>, i: nat)
    requires i < |xs| && f(xs[i]).Err? && forall j :: 0 <= j < i ==> f(xs[j]).Ok?
    ensures MapAll(xs, f) == Err(f(xs[i]).error)
    decreases |xs|
  {
    var init := xs[..|xs| - 1];
    if i < |xs| - 1 {
      assert init[i] == xs[i];
      assert forall j :: 0 <= j < i ==> init[j] == xs[j];
      MapAllFirstError(init, f, i);
    } else {
      MapAllSpec(init, f);
      assert forall j :: 0 <= j < |init| ==> init[j] == xs[j];
    }
  }

  lemma MapAllStep<T, U>(xs: seq<T>, f: T -> Result<U>, j: nat, p: seq<U>)
    requires 0 < j <= |xs| && MapAll(xs[..j - 1], f) == Ok(p)
    ensures MapAll(xs[..j], f) ==
      match f(xs[j - 1])
      case Err(e) => Err(e)
      case Ok(y) => Ok(p + [y])
  {
    var d := xs[..j];
    assert d[..|d| - 1] == xs[..j - 1];
    assert d[|d| - 1] == xs[j - 1];
  }

  lemma {:induction false} MapAllStops<T, U>(xs: seq<T>, f: T -> Result<U>, i: nat)
    requires i <= |xs| && MapAll(xs[..i], f).Err?
    ensures MapAll(xs, f) == MapAll(xs[..i], f)
    decreases |xs| - i
  {
    if i < |xs| {
      assert xs[..i + 1][..i] == xs[..i];
      MapAllStops(xs, f, i + 1);
    } else {
      assert xs[..i] == xs;
    }
  }

  /** Writing position i of a sequence extends its prefix before i by the
      new element. */
  lemma UpdatedPrefix<T>(s: seq<T>, i: nat, x: T)
    requires i < |s|
    ensures s[i := x][..i + 1] == s[..i] + [x]
  {
  }

  /** Regrouping a concatenation of four strings. */
  lemma Regroup(a: string, b: string, c: string, d: string)
    ensures a + (b + c + d) == a + b + c + d
  {
  }

  /** Joining one more piece appends the separator and the piece. */
  lemma {:induction false} JoinSnoc(sep: string, pieces: seq<string>, x: string)
    requires |pieces| >= 1
    ensures Join(sep, pieces + [x]) == Join(sep, pieces) + sep + x
    decreases |pieces|
  {
    var ps := pieces + [x];
    assert ps[1..] == pieces[1..] + [x];
    if |pieces| > 1 {
      JoinSnoc(sep, pieces[1..], x);
    }
  }

  /** A foreach that appends one string per element. */
  method EachString<T>(xs: seq<T>, f: T -> string) returns (r: seq<string>)
    ensures |r| == |xs| && forall j :: 0 <= j < |xs| ==> r[j] == f(xs[j])
  {
    r := [];
    var i := 0;
    while i < |xs|
      invariant 0 <= i <= |xs| && |r| == i
      invariant forall j :: 0 <= j < i ==> r[j] == f(xs[j])
    {
      r := r + [f(xs[i])];
      i := i + 1;
    }
  }

  /** Index of the first c in s, or |s| when there is none. */
  function IndexOf(s: string, c: char): (k: nat)
    ensures k <= |s|
    ensures forall j :: 0 <= j < k ==> s[j] != c
    ensures k < |s| ==> s[k] == c
    ensures c !in s ==> k == |s|
  {
    if |s| == 0 then 0 else if s[0] == c then 0 else 1 + IndexOf(s[1..], c)
  }

  /** explode(c, s) for a one-character separator. */
  function Split(s: string, c: char): (r: seq<string>)
    ensures |r| >= 1
    decreases |s|
  {
    var k := IndexOf(s, c);
    if k == |s| then [s] else [s[..k]] + Split(s[k + 1..], c)
  }

  /** Joining the pieces of explode gives the string back. */
  lemma {:induction false} JoinSplit(s: string, c: char)
    ensures Join([c], Split(s, c)) == s
    decreases |s|
  {
    var k := IndexOf(s, c);
    if k < |s| {
      var head, tail := s[..k], s[k + 1..];
      var rest := Split(tail, c);
      JoinSplit(tail, c);
      var pieces := [head] + rest;
      assert Split(s, c) == pieces;
      assert pieces[1..] == rest;
      assert Join([c], pieces) == head + [c] + Join([c], rest);
      assert s == head + [c] + tail;
    }
  }

  /** Exploding an implode of pieces free of the separator gives the pieces back. */
  lemma {:induction false} SplitJoin(pieces: seq<string>, c: char)
    requires |pieces| >= 1
    requires forall p :: p in pieces ==> c !in p
    ensures Split(Join([c], pieces), c) == pieces
    decreases |pieces|
  {
    var p := pieces[0];
    if |pieces| > 1 {
      var rest := pieces[1..];
      var s := p + [c] + Join([c], rest);
      assert Join([c], pieces) == s;
      IndexOfPrefix(p, c, Join([c], rest));
      assert s[..|p|] == p;
      assert s[|p| + 1..] == Join([c], rest);
      SplitJoin(rest, c);
      assert pieces == [p] + rest;
    }
  }

  lemma IndexOfPrefix(p: string, c: char, t: string)
    requires c !in p
    ensures IndexOf(p + [c] + t, c) == |p|
  {
    var s := p + [c] + t;
    assert s[|p|] == c;
  }
}

/** Worked examples of the integer cast, kept apart from the definitions so
    that each literal is evaluated only against the lemmas above. */
module ValuesExamples {
  import opened Values

  /** The example texts, each as the parts the lemmas above take. */
  lemma ExampleTexts()
    ensures " " + "5" == " 5" && " " + "-5" == " -5" && "-" + "5" == "-5"
    ensures "1" + "e3" == "1e3" && "15" + "e-1" == "15e-1" && "e" + "3" == "e3" && "e-" + "1" == "e-1"
    ensures "1" + "." + "9" == "1.9" && "12" + "abc" == "12abc"
  {
  }

  /** The digit strings of the examples. */
  lemma ExampleDigits()
    ensures LeadingDigits("1", 0) == 1 && LeadingDigits("3", 0) == 3 && LeadingDigits("5", 0) == 5
    ensures LeadingDigits("12", 0) == 12 && LeadingDigits("15", 0) == 15
  {
  }

  lemma ExponentExamples()
    ensures Exponent("e3") == 3 && Exponent("e-1") == -1
  {
    ExponentOf("3");
    ExponentOf("1");
    ExampleTexts();
  }

  /** Leading whitespace: " 5" is 5. */
  lemma ToIntSpacedExample()
    ensures ToInt(Str(" 5")) == 5
  {
    ToIntSkipsSpaces(" ", "5");
    ToIntUnsigned("5");
    MagnitudeDigits("5");
    ExampleTexts();
    ExampleDigits();
  }

  /** Leading whitespace and a sign: " -5" is -5. */
  lemma ToIntSpacedNegativeExample()
    ensures ToInt(Str(" -5")) == -5
  {
    ToIntSkipsSpaces(" ", "-5");
    ToIntUnsigned("5");
    MagnitudeDigits("5");
    ExampleTexts();
    ExampleDigits();
  }

  /** "1e3" is 1000. */
  lemma ToIntExponentExample()
    ensures ToInt(Str("1e3")) == 1000
  {
    ToIntScaled("1", "e3");
    ExponentExamples();
    ExampleTexts();
    ExampleDigits();
    assert Scaled(1, 3) == 1000;
  }

  /** "15e-1" is 1.5 truncated, 1. */
  lemma ToIntNegativeExponentExample()
    ensures ToInt(Str("15e-1")) == 1
  {
    ToIntScaled("15", "e-1");
    ExponentExamples();
    ExampleTexts();
    ExampleDigits();
    assert Scaled(15, -1) == 1;
  }

  /** "1.9" is 1. */
  lemma ToIntFractionExample()
    ensures ToInt(Str("1.9")) == 1
  {
    ToIntTruncates("1", "9");
    ExampleTexts();
    ExampleDigits();
  }

  /** "12abc" is 12. */
  lemma ToIntTrailingExample()
    ensures ToInt(Str("12abc")) == 12
  {
    ToIntStopsAt("12", "abc");
    ExampleTexts();
    ExampleDigits();
  }

  /** "abc" is 0. */
  lemma ToIntWordExample()
    ensures ToInt(Str("abc")) == 0
  {
    ToIntNoNumber("abc");
  }
}
