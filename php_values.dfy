/** The PHP values the core stores in the session and in connection
    parameters, with the conversions PHP applies to them: truthiness
    (`if ($v)`, `empty($v)`, `boolval`), string conversion (`strval`, `.`),
    `intval`, and loose comparison `==` against a string. */
module PhpValues {
  import opened PhpStrings

  /** One remembered CSRF token: `['token' => $token, 'datetime' => $now]`,
      the time kept as its Unix timestamp. */
  datatype CsrfEntry = CsrfEntry(token: string, issuedAt: int)

  /** A PHP value. Arrays appear in the core only as CSRF token lists. */
  datatype Value =
    | Null
    | Bool(b: bool)
    | Int(i: int)
    | Str(s: string)
    | TokenList(entries: seq<CsrfEntry>)

  /** PHP's conversion to boolean: null, false, 0, "", "0" and the empty
      array are false, everything else is true. */
  predicate Truthy(v: Value)
  {
    match v
    case Null => false
    case Bool(b) => b
    case Int(i) => i != 0
    case Str(s) => s != "" && s != "0"
    case TokenList(es) => es != []
  }

  /** `empty($v)` on a variable that exists. */
  predicate IsEmpty(v: Value)
  {
    !Truthy(v)
  }

  /** The values `empty` accepts, listed. */
  lemma EmptyValues(v: Value)
    ensures IsEmpty(v) <==> v in {Null, Bool(false), Int(0), Str(""), Str("0"), TokenList([])}
  {
  }

  /** `strval($v)`, which is also what `.` concatenation does to `$v`
      (an array converts to "Array"). */
  function Strval(v: Value): (s: string)
    ensures v.Str? ==> s == v.s
    ensures v.Int? ==> s == IntToString(v.i)
    ensures s == [] <==> v == Null || v == Bool(false) || v == Str("")
  {
    match v
    case Null => ""
    case Bool(b) => if b then "1" else ""
    case Int(i) => IntToString(i)
    case Str(s) => s
    case TokenList(_) => "Array"
  }

  /** The type name PHP 8 puts in the message of an `Error` raised on a value,
      as in `Call to a member function f() on string`. */
  function TypeName(v: Value): (name: string)
    ensures name in {"null", "bool", "int", "string", "array"}
  {
    match v
    case Null => "null"
    case Bool(_) => "bool"
    case Int(_) => "int"
    case Str(_) => "string"
    case TokenList(_) => "array"
  }

  /** The white space PHP skips before a number in a string: " \t\n\r\v\f". */
  predicate IsNumericSpace(c: char)
  {
    c == ' ' || c == '\t' || c == '\n' || c == '\r' || c == 11 as char || c == 12 as char
  }

  function SkipSpace(s: string): (t: string)
  {
    if s != [] && IsNumericSpace(s[0]) then SkipSpace(s[1..]) else s
  }

  /** The longest run of decimal digits at the start of `s`. */
  function DigitPrefix(s: string): (d: string)
    ensures forall i :: 0 <= i < |d| ==> IsDigit(d[i])
  {
    if s != [] && IsDigit(s[0]) then [s[0]] + DigitPrefix(s[1..]) else []
  }

  /** The integer value of the leading decimal number of a string:
      optional white space, an optional sign, then digits; 0 when there are none. */
  function LeadingInt(s: string): int
  {
    var t := SkipSpace(s);
    if t != [] && t[0] == '-' then 0 - DigitsValue(DigitPrefix(t[1..]))
    else if t != [] && t[0] == '+' then DigitsValue(DigitPrefix(t[1..]))
    else DigitsValue(DigitPrefix(t))
  }

  /** `intval($v)`. */
  function Intval(v: Value): int
  {
    match v
    case Null => 0
    case Bool(b) => if b then 1 else 0
    case Int(i) => i
    case Str(s) => LeadingInt(s)
    case TokenList(es) => if es == [] then 0 else 1
  }

  /** A string of digits is its own digit prefix. */
  lemma {:induction false} DigitPrefixAll(s: string)
    requires forall i :: 0 <= i < |s| ==> IsDigit(s[i])
    ensures DigitPrefix(s) == s
  {
    if s != [] {
      DigitPrefixAll(s[1..]);
    }
  }

  /** A digit string that starts the text is read whole. */
  lemma LeadingDigits(d: string)
    requires d != [] && forall i :: 0 <= i < |d| ==> IsDigit(d[i])
    ensures LeadingInt(d) == DigitsValue(d)
    ensures LeadingInt("-" + d) == 0 - DigitsValue(d)
  {
    DigitPrefixAll(d);
    assert IsDigit(d[0]);
    assert !IsNumericSpace(d[0]);
    assert SkipSpace(d) == d;
    var m := "-" + d;
    assert !IsNumericSpace(m[0]);
    assert SkipSpace(m) == m;
    assert m[1..] == d;
  }

  /** The decimal form of a natural number, with or without a minus sign, reads back. */
  lemma {:induction false} LeadingNat(n: nat)
    ensures LeadingInt(NatToString(n)) == n
    ensures LeadingInt("-" + NatToString(n)) == -(n as int)
  {
    LeadingDigits(NatToString(n));
    DigitsOfNat(n);
  }

  /** `intval` reads back the decimal form PHP writes for an integer. */
  lemma {:induction false} IntvalIntToString(i: int)
    ensures Intval(Str(IntToString(i))) == i
  {
    if i < 0 {
      var n: nat := -i;
      LeadingNat(n);
      assert IntToString(i) == "-" + NatToString(n);
    } else {
      LeadingNat(i);
    }
  }

  /** No character of `s` is a digit, so PHP 8 never compares `s` numerically. */
  predicate DigitFree(s: string)
  {
    forall i :: 0 <= i < |s| ==> !IsDigit(s[i])
  }

  /** PHP 8's loose comparison `$v == s` with a string that holds no digit:
      null equals only "", a boolean compares with the string's truthiness,
      an integer is compared as its decimal string, an array never equals a
      string. */
  predicate LooseEqualsString(v: Value, s: string)
    requires DigitFree(s)
  {
    match v
    case Null => s == ""
    case Bool(b) => b == Truthy(Str(s))
    case Int(i) => IntToString(i) == s
    case Str(t) => t == s
    case TokenList(_) => false
  }

  /** The values loosely equal to a non-empty digit-free string other than "0":
      the string itself and `true`. */
  lemma LooseEqualsNonEmpty(v: Value, s: string)
    requires DigitFree(s) && s != ""
    ensures LooseEqualsString(v, s) <==> v == Str(s) || v == Bool(true)
  {
    assert !IsDigit(s[0]);
    assert s != "0";
    if v.Int? {
      var d := IntToString(v.i);
      var k := if v.i < 0 then 1 else 0;
      assert IsDigit(d[k]);
      if k < |s| {
        assert !IsDigit(s[k]);
      }
      assert d != s;
    }
  }
}
