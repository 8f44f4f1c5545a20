/** A bound query parameter (core/DbField.php): a column key, the value
    converted for its declared type, and the PDO parameter type it is bound
    with. */
module DbFields {
  import opened Wrappers
  import opened PhpStrings
  import opened PhpValues

  /** A `DateTimeInterface` value, by its calendar fields. */
  datatype DateTime = DateTime(year: nat, month: nat, day: nat, hour: nat, minute: nat, second: nat)

  /** A date a PHP `DateTime` can hold with a four-digit year. */
  predicate ValidDateTime(d: DateTime)
  {
    d.year < 10000 && 1 <= d.month <= 12 && 1 <= d.day <= 31 && d.hour < 24 && d.minute < 60 && d.second < 60
  }

  /** What the constructor receives as `$value`: a scalar or a date object. */
  datatype FieldInput = Scalar(value: Value) | DateObject(date: DateTime)

  /** `PDO::PARAM_NULL`, `PDO::PARAM_INT`, `PDO::PARAM_STR`, `PDO::PARAM_BOOL`. */
  datatype BindType = ParamNull | ParamInt | ParamStr | ParamBool

  predicate AllDigits(s: string)
  {
    forall i :: 0 <= i < |s| ==> IsDigit(s[i])
  }

  function Zeros(n: nat): (z: string)
    ensures |z| == n && forall i :: 0 <= i < n ==> z[i] == '0'
  {
    if n == 0 then [] else Zeros(n - 1) + ['0']
  }

  /** `n` in decimal, left-padded with zeros to at least `width` digits. */
  function Pad(n: nat, width: nat): (s: string)
    ensures AllDigits(s)
    ensures |s| == if |NatToString(n)| >= width then |NatToString(n)| else width
  {
    var digits := NatToString(n);
    if |digits| >= width then digits else Zeros(width - |digits|) + digits
  }

  function Pow10(w: nat): nat
  {
    if w == 0 then 1 else 10 * Pow10(w - 1)
  }

  /** A number below `10^w` has at most `w` digits. */
  lemma {:induction false} DigitCount(n: nat, w: nat)
    requires 1 <= w && n < Pow10(w)
    ensures |NatToString(n)| <= w
  {
    if n >= 10 {
      assert Pow10(1) == 10;
      assert n / 10 < Pow10(w - 1);
      DigitCount(n / 10, w - 1);
    }
  }

  /** Leading zeros do not change a number's value. */
  lemma {:induction false} ZerosValue(z: string, s: string)
    requires forall i :: 0 <= i < |z| ==> z[i] == '0'
    requires AllDigits(s)
    ensures AllDigits(z + s)
    ensures DigitsValue(z + s) == DigitsValue(s)
    decreases |z| + |s|
  {
    var t := z + s;
    assert AllDigits(t) by {
      forall i | 0 <= i < |t| ensures IsDigit(t[i]) {
        if i < |z| { assert t[i] == z[i]; } else { assert t[i] == s[i - |z|]; }
      }
    }
    if s == [] {
      assert t == z;
      if z != [] {
        assert t[..|t| - 1] == z[..|z| - 1] + [];
        ZerosValue(z[..|z| - 1], []);
      }
    } else {
      assert t[..|t| - 1] == z + s[..|s| - 1];
      assert t[|t| - 1] == s[|s| - 1];
      ZerosValue(z, s[..|s| - 1]);
    }
  }

  /** Reading a padded number back gives the number. */
  lemma PadValue(n: nat, width: nat)
    ensures DigitsValue(Pad(n, width)) == n
  {
    var digits := NatToString(n);
    DigitsOfNat(n);
    if |digits| < width {
      ZerosValue(Zeros(width - |digits|), digits);
    }
  }

  /** `format('Y-m-d')`. */
  function FormatDate(d: DateTime): string
  {
    Pad(d.year, 4) + "-" + Pad(d.month, 2) + "-" + Pad(d.day, 2)
  }

  /** `format('Y-m-d H:i:s')`. */
  function FormatDateTime(d: DateTime): string
  {
    FormatDate(d) + " " + Pad(d.hour, 2) + ":" + Pad(d.minute, 2) + ":" + Pad(d.second, 2)
  }

  /** The decimal number in `s[start..start + width]`, if it is all digits. */
  function NumberAt(s: string, start: nat, width: nat): (r: Option<nat>)
    ensures r.Some? <==> start + width <= |s| && AllDigits(s[start..start + width])
  {
    if start + width <= |s| && AllDigits(s[start..start + width]) then Some(DigitsValue(s[start..start + width])) else None
  }

  /** Reads a `Y-m-d` date back as year, month and day. */
  function ParseDate(s: string): (r: Option<(nat, nat, nat)>)
    ensures r.Some? ==> |s| == 10 && s[4] == '-' && s[7] == '-'
  {
    if |s| != 10 || s[4] != '-' || s[7] != '-' then None
    else
      var year, month, day := NumberAt(s, 0, 4), NumberAt(s, 5, 2), NumberAt(s, 8, 2);
      if year.Some? && month.Some? && day.Some? then Some((year.value, month.value, day.value)) else None
  }

  /** Reads a `Y-m-d H:i:s` timestamp back as a date-time. */
  function ParseDateTime(s: string): (r: Option<DateTime>)
    ensures r.Some? ==> |s| == 19 && s[10] == ' ' && s[13] == ':' && s[16] == ':'
  {
    if |s| != 19 || s[10] != ' ' || s[13] != ':' || s[16] != ':' then None
    else
      var date, hour, minute, second := ParseDate(s[..10]), NumberAt(s, 11, 2), NumberAt(s, 14, 2), NumberAt(s, 17, 2);
      if date.Some? && hour.Some? && minute.Some? && second.Some? then
        Some(DateTime(date.value.0, date.value.1, date.value.2, hour.value, minute.value, second.value))
      else None
  }

  /** The padded field `Pad(n, w)` of exactly `w` digits at `start` reads back as `n`. */
  lemma FieldReadsBack(s: string, start: nat, n: nat, w: nat)
    requires 1 <= w && n < Pow10(w)
    requires start + w <= |s| && s[start..start + w] == Pad(n, w)
    ensures NumberAt(s, start, w) == Some(n)
  {
    PadValue(n, w);
  }

  lemma PadExact(n: nat, w: nat)
    requires 1 <= w && n < Pow10(w)
    ensures |Pad(n, w)| == w
  {
    DigitCount(n, w);
  }

  /** Where the fields of a `Y-m-d` text lie. */
  lemma DateLayout(y: string, m: string, d: string)
    requires |y| == 4 && |m| == 2 && |d| == 2
    ensures var s := y + "-" + m + "-" + d;
      |s| == 10 && s[0..4] == y && s[4] == '-' && s[5..7] == m && s[7] == '-' && s[8..10] == d
  {
  }

  /** Where the fields of a `Y-m-d H:i:s` text lie. */
  lemma DateTimeLayout(date: string, h: string, m: string, sec: string)
    requires |date| == 10 && |h| == 2 && |m| == 2 && |sec| == 2
    ensures var s := date + " " + h + ":" + m + ":" + sec;
      |s| == 19 && s[..10] == date && s[10] == ' ' && s[11..13] == h && s[13] == ':'
      && s[14..16] == m && s[16] == ':' && s[17..19] == sec
  {
  }

  /** `format('Y-m-d')` of a valid date is ten characters and reads back as
      the same year, month and day. */
  lemma {:induction false} FormatDateRoundTrip(d: DateTime)
    requires ValidDateTime(d)
    ensures |FormatDate(d)| == 10
    ensures ParseDate(FormatDate(d)) == Some((d.year, d.month, d.day))
  {
    assert Pow10(2) == 100 && Pow10(4) == 10000;
    PadExact(d.year, 4);
    PadExact(d.month, 2);
    PadExact(d.day, 2);
    var s := FormatDate(d);
    DateLayout(Pad(d.year, 4), Pad(d.month, 2), Pad(d.day, 2));
    FieldReadsBack(s, 0, d.year, 4);
    FieldReadsBack(s, 5, d.month, 2);
    FieldReadsBack(s, 8, d.day, 2);
  }

  /** `format('Y-m-d H:i:s')` of a valid date-time is nineteen characters and
      reads back as the same date-time. */
  lemma {:induction false} FormatDateTimeRoundTrip(d: DateTime)
    requires ValidDateTime(d)
    ensures |FormatDateTime(d)| == 19
    ensures ParseDateTime(FormatDateTime(d)) == Some(d)
  {
    assert Pow10(2) == 100;
    FormatDateRoundTrip(d);
    PadExact(d.hour, 2);
    PadExact(d.minute, 2);
    PadExact(d.second, 2);
    var s := FormatDateTime(d);
    DateTimeLayout(FormatDate(d), Pad(d.hour, 2), Pad(d.minute, 2), Pad(d.second, 2));
    FieldReadsBack(s, 11, d.hour, 2);
    FieldReadsBack(s, 14, d.minute, 2);
    FieldReadsBack(s, 17, d.second, 2);
  }

  /** `strval($value)`: a date object has no string conversion (an Error in PHP). */
  function StrvalOf(input: FieldInput): Option<string>
  {
    match input
    case Scalar(v) => Some(Strval(v))
    case DateObject(_) => None
  }

  /** `intval($value)`: an object converts to 1. */
  function IntvalOf(input: FieldInput): int
  {
    match input
    case Scalar(v) => Intval(v)
    case DateObject(_) => 1
  }

  /** `boolval($value)`: an object is true. */
  function BoolvalOf(input: FieldInput): bool
  {
    match input
    case Scalar(v) => Truthy(v)
    case DateObject(_) => true
  }

  /** `setValueAndType($value, $type)`: the stored value and bind type, or
      the message of the exception (or error) the switch raises. */
  function Bind(input: FieldInput, typeName: string): (r: Result<(Value, BindType), string>)
    ensures r.Ok? ==> r.value.1 != ParamBool
    ensures typeName == "string" ==> r == if input.Scalar? then Ok((Str(Strval(input.value)), ParamStr)) else Err("Object of class DateTime could not be converted to string")
    ensures typeName == "int" ==> r == Ok((Int(IntvalOf(input)), ParamInt))
    ensures typeName == "bool" ==> r == Ok((Bool(BoolvalOf(input)), ParamInt))
    ensures typeName == "date" ==> r == if input.DateObject? then Ok((Str(FormatDate(input.date)), ParamStr)) else Err("Call to a member function format() on " + TypeName(input.value))
    ensures typeName == "datetime" ==> r == if input.DateObject? then Ok((Str(FormatDateTime(input.date)), ParamStr)) else Err("Call to a member function format() on " + TypeName(input.value))
    ensures typeName == "null" ==> r == Ok((Null, ParamNull))
    ensures typeName !in {"string", "int", "bool", "date", "datetime", "null"} ==> r == Err("Type is invalid: " + typeName)
  {
    if typeName == "string" then
      match StrvalOf(input)
      case Some(s) => Ok((Str(s), ParamStr))
      case None => Err("Object of class DateTime could not be converted to string")
    else if typeName == "int" then Ok((Int(IntvalOf(input)), ParamInt))
    else if typeName == "bool" then Ok((Bool(BoolvalOf(input)), ParamInt))
    else if typeName == "date" then
      if input.DateObject? then Ok((Str(FormatDate(input.date)), ParamStr))
      else Err("Call to a member function format() on " + TypeName(input.value))
    else if typeName == "datetime" then
      if input.DateObject? then Ok((Str(FormatDateTime(input.date)), ParamStr))
      else Err("Call to a member function format() on " + TypeName(input.value))
    else if typeName == "null" then Ok((Null, ParamNull))
    else Err("Type is invalid: " + typeName)
  }

  /** An integer bound as "string" and one bound as "int" from its decimal
      text carry the same number. */
  lemma IntBindings(i: int)
    ensures Bind(Scalar(Int(i)), "string") == Ok((Str(IntToString(i)), ParamStr))
    ensures Bind(Scalar(Str(IntToString(i))), "int") == Ok((Int(i), ParamInt))
  {
    IntvalIntToString(i);
  }

  class DbField {
    const key: string
    const value: Value
    const bindType: BindType
    /** What the field was constructed from. */
    ghost const input: FieldInput
    ghost const typeName: string

    /** The stored value and type are what `setValueAndType` chose for the
        constructor's input and type name; nothing changes them later. */
    ghost predicate Valid()
    {
      Bind(input, typeName) == Ok((value, bindType))
    }

    constructor Init(key: string, value: Value, bindType: BindType, ghost input: FieldInput, ghost typeName: string)
      requires Bind(input, typeName) == Ok((value, bindType))
      ensures this.key == key && this.value == value && this.bindType == bindType
      ensures this.input == input && this.typeName == typeName && Valid()
    {
      this.key := key;
      this.value := value;
      this.bindType := bindType;
      this.input := input;
      this.typeName := typeName;
    }

    /** `new DbField($key, $value, $type)`; the type defaults to "string". A
        type the switch rejects raises instead of giving a field. */
    static method New(key: string, input: FieldInput, typeName: string := "string") returns (r: Result<DbField, string>)
      ensures Bind(input, typeName).Err? ==> r == Err(Bind(input, typeName).error)
      ensures Bind(input, typeName).Ok? ==>
        && r.Ok? && fresh(r.value) && r.value.Valid()
        && r.value.key == key && r.value.input == input && r.value.typeName == typeName
        && (r.value.value, r.value.bindType) == Bind(input, typeName).value
    {
      var bound := Bind(input, typeName);
      if bound.Err? {
        return Err(bound.error);
      }
      var field := new DbField.Init(key, bound.value.0, bound.value.1, input, typeName);
      return Ok(field);
    }

    /** `getKey()`: the column key given to the constructor. */
    function GetKey(): (k: string)
      ensures k == key
    {
      key
    }

    /** `getValue()`: the value bound from the constructor's input. */
    function GetValue(): (v: Value)
      requires Valid()
      ensures Bind(input, typeName) == Ok((v, GetType()))
      ensures typeName == "null" ==> v == Null
      ensures typeName == "bool" ==> v.Bool?
    {
      value
    }

    /** `getType()`: the PDO type bound from the constructor's type name;
        `bool` values go as `PARAM_INT` and nothing is `PARAM_BOOL`. */
    function GetType(): (t: BindType)
      requires Valid()
      ensures Bind(input, typeName) == Ok((value, t))
      ensures t != ParamBool
      ensures typeName in {"int", "bool"} ==> t == ParamInt
      ensures typeName in {"string", "date", "datetime"} ==> t == ParamStr
    {
      bindType
    }
  }
}
