/**
 * JavaScript's `Number(value)` conversion, as far as the service uses it: for the `age` field
 * (through zod's `z.coerce.number()`) and for the `PORT` environment variable.
 */
module JsNumber {
  import opened Wrappers
  import opened Text
  import opened Json

  /** A JavaScript number: a finite value, NaN or one of the two infinities. */
  datatype Num = Finite(value: real) | NaN | PositiveInfinity | NegativeInfinity

  /** `Number.isInteger` */
  predicate IsInteger(n: Num) {
    n.Finite? && n.value == n.value.Floor as real
  }

  function Negate(n: Num): Num {
    match n
    case Finite(x) => Finite(-x)
    case NaN => NaN
    case PositiveInfinity => NegativeInfinity
    case NegativeInfinity => PositiveInfinity
  }

  /** The position of the first `.` in `t`, or `|t|` when there is none. */
  function DotIndex(t: string): (k: nat)
    ensures k <= |t|
    ensures k < |t| ==> t[k] == '.'
    ensures forall i :: 0 <= i < k ==> t[i] != '.'
  {
    if t == [] then 0 else if t[0] == '.' then 0 else 1 + DotIndex(t[1..])
  }

  /**
   * An unsigned decimal literal `digits[.digits]` with at least one digit, or `Infinity`.
   * Exponents and the `0x`/`0o`/`0b` prefixes are not recognised (they give NaN here).
   */
  function UnsignedNumber(t: string): (r: Num)
    ensures r.Finite? ==> r.value >= 0.0
    ensures r == PositiveInfinity <==> t == "Infinity"
    ensures r != NegativeInfinity
  {
    if t == "Infinity" then PositiveInfinity
    else
      var k := DotIndex(t);
      var whole := t[..k];
      var fraction := if k < |t| then t[k + 1..] else "";
      if (whole != [] || fraction != []) && AllDigits(whole) && AllDigits(fraction) then
        Finite(NumeralValue(whole, 10) as real
               + NumeralValue(fraction, 10) as real / Pow(10, |fraction|) as real)
      else NaN
  }

  /** A trimmed literal with its optional sign: the empty text is 0. */
  function SignedNumber(t: string): (r: Num)
    ensures t == [] ==> r == Finite(0.0)
    ensures r.Finite? && r.value < 0.0 ==> t[0] == '-'
    ensures r == NegativeInfinity <==> t == "-Infinity"
    ensures r == PositiveInfinity <==> t == "Infinity" || t == "+Infinity"
  {
    if t == [] then Finite(0.0)
    else if t[0] == '+' then UnsignedNumber(t[1..])
    else if t[0] == '-' then Negate(UnsignedNumber(t[1..]))
    else UnsignedNumber(t)
  }

  /** `Number(s)` for a string: surrounding whitespace is ignored and the empty string is 0. */
  function StringToNumber(s: string): (r: Num)
    ensures Trim(s) == [] ==> r == Finite(0.0)
    ensures r.Finite? && r.value < 0.0 ==> Trim(s)[0] == '-'
    ensures r == NegativeInfinity <==> Trim(s) == "-Infinity"
    ensures r == PositiveInfinity <==> Trim(s) == "Infinity" || Trim(s) == "+Infinity"
  {
    SignedNumber(Trim(s))
  }

  /** Only the trimmed text matters: padding a literal with whitespace does not change it. */
  lemma StringToNumberIgnoresPadding(s: string)
    ensures StringToNumber(Trim(s)) == StringToNumber(s)
  {
    TrimIdempotent(s);
  }

  /** A leading `-` negates the rest of the literal. */
  lemma StringToNumberNegative(t: string)
    requires t != [] && t[0] == '-' && Trim(t) == t
    ensures StringToNumber(t) == Negate(UnsignedNumber(t[1..]))
  {
  }

  /** A non-empty run of digits is a decimal literal whose value is its numeral value. */
  lemma UnsignedDigits(t: string)
    requires t != [] && AllDigits(t)
    ensures UnsignedNumber(t) == Finite(NumeralValue(t, 10) as real)
  {
    assert t != "Infinity" by { assert !IsDigit("Infinity"[0]); }
    assert DotIndex(t) == |t| by { assert forall i :: 0 <= i < |t| ==> t[i] != '.'; }
    assert t[..|t|] == t;
    assert Pow(10, 0) == 1;
  }

  /** A run of digits converts to its decimal value. */
  lemma StringToNumberOfDigits(t: string)
    requires t != [] && AllDigits(t)
    ensures StringToNumber(t) == Finite(NumeralValue(t, 10) as real)
  {
    assert forall i :: 0 <= i < |t| ==> !IsSpace(t[i]) by {
      forall i | 0 <= i < |t| ensures !IsSpace(t[i]) {
        assert IsDigit(t[i]);
      }
    }
    TrimNoSpace(t);
    assert t[0] != '+' && t[0] != '-' by { assert IsDigit(t[0]); }
    UnsignedDigits(t);
  }

  /** The decimal form of a natural number reads back as that number. */
  lemma StringToNumberOfDecimal(n: nat)
    ensures StringToNumber(DecimalString(n)) == Finite(n as real)
  {
    StringToNumberOfDigits(DecimalString(n));
    NumeralRoundTrip(n, 10, 1);
  }

  /**
   * Whether `ToPrimitive` throws a `TypeError` on a JSON value. An object with its own
   * `toString` key (a JSON value, never callable) has no usable `toString`, and the inherited
   * `valueOf` returns the object itself, so no primitive is found. An array converts through
   * `join`, which converts every element to a string, so it throws when one of its elements
   * does, at any depth. Other objects become `[object Object]`.
   */
  predicate ToPrimitiveThrows(x: Value) {
    match x
    case JObject(members) => "toString" in Keys(members)
    case JArray(items) => exists i :: 0 <= i < |items| && ToPrimitiveThrows(items[i])
    case _ => false
  }

  const CannotConvertToPrimitive := "TypeError: Cannot convert object to primitive value"

  /** `Number(value)` for a value read from a JSON body; `None` is `undefined`. */
  function ToNumber(v: Option<Value>): (r: Result<Num, string>)
    ensures r.Err? <==> v.Some? && ToPrimitiveThrows(v.value)
    ensures v.Some? && v.value.JNumber? ==> r == Ok(Finite(v.value.n))
    ensures v.None? ==> r == Ok(NaN)
  {
    match v
    case None => Ok(NaN)
    case Some(x) => ValueToNumber(x)
  }

  /**
   * `Number(x)` for a JSON value: `null` is 0, booleans are 0/1, strings are parsed, an object is
   * NaN, and an array converts through its string form (empty: 0, one element: that element,
   * more: NaN); a value on which `ToPrimitive` throws gives the `TypeError` instead.
   */
  function ValueToNumber(x: Value): (r: Result<Num, string>)
    ensures r.Err? <==> ToPrimitiveThrows(x)
    ensures r.Err? ==> r.error == CannotConvertToPrimitive
    ensures x.JNumber? ==> r == Ok(Finite(x.n))
    ensures x.JBool? || x.JNull? ==> r.Ok? && IsInteger(r.value) && 0.0 <= r.value.value <= 1.0
    ensures x.JObject? && r.Ok? ==> r.value == NaN
    ensures x.JString? ==> r == Ok(StringToNumber(x.s))
    ensures x.JArray? && |x.items| >= 2 && r.Ok? ==> r.value == NaN
    ensures x.JArray? && |x.items| == 1 && !x.items[0].JBool? && !x.items[0].JNull? ==> r == ValueToNumber(x.items[0])
  {
    if ToPrimitiveThrows(x) then Err(CannotConvertToPrimitive)
    else
      match x
      case JNumber(r) => Ok(Finite(r))
      case JString(s) => Ok(StringToNumber(s))
      case JBool(b) => Ok(Finite(if b then 1.0 else 0.0))
      case JNull => Ok(Finite(0.0))
      case JObject(_) => Ok(NaN)
      case JArray(items) =>
        if |items| == 0 then Ok(Finite(0.0))
        else if |items| == 1 then
          (match items[0]
           case JNull => Ok(Finite(0.0))      // String([null]) is ""
           case JBool(_) => Ok(NaN)           // "true" / "false"
           case _ => ValueToNumber(items[0]))
        else Ok(NaN)
  }

}
