/**
  A JavaScript value as it comes out of `JSON.parse`, plus `undefined` for
  missing fields. Numbers are integers here; fractional numbers are not part
  of the model.
*/
module Js {
  import opened Strings

  datatype Value =
    | Undefined
    | Null
    | Bool(b: bool)
    | Number(n: int)
    | Str(s: string)
    | Array(items: seq<Value>)
    | Object(fields: map<string, Value>)

  /** `v[key]` for an object; any other kind of value has no JSON fields, so this is `undefined`. */
  function Get(v: Value, key: string): Value {
    if v.Object? && key in v.fields then v.fields[key] else Undefined
  }

  /**
    The one key an assignment does not simply store: `obj["__proto__"] = v`
    reaches the accessor every ordinary object inherits, which at most
    changes the prototype and never adds a property.
  */
  const ProtoKey := "__proto__"

  /**
    `obj[key] = value` on an ordinary object whose own properties are
    `fields`: the key is set, unless it is `__proto__` and not already an own
    property.
  */
  function Assign(fields: map<string, Value>, key: string, value: Value): map<string, Value> {
    if key == ProtoKey && key !in fields then fields else fields[key := value]
  }

  /** JavaScript truthiness: `undefined`, `null`, `false`, `0` and `''` are falsy. */
  predicate Truthy(v: Value) {
    match v
    case Undefined => false
    case Null => false
    case Bool(b) => b
    case Number(n) => n != 0
    case Str(s) => s != ""
    case Array(_) => true
    case Object(_) => true
  }

  /** A number as `ToIntegerOrInfinity` sees it: an integer, an infinity, or NaN. */
  datatype Numeric = Finite(n: int) | PosInfinity | NegInfinity | NaN

  predicate AllDigits(s: string) {
    forall i :: 0 <= i < |s| ==> IsDigit(s[i])
  }

  /**
    `ToNumber` of a string (section 7.1.4.1.1 of ECMA-262): surrounding
    whitespace is ignored, the empty string is 0, a signed decimal integer or
    `Infinity` is read as written, and anything else is NaN.
  */
  function StringToNumber(s: string): Numeric {
    var t := Trim(s);
    if t == "" then Finite(0)
    else if t == "Infinity" || t == "+Infinity" then PosInfinity
    else if t == "-Infinity" then NegInfinity
    else if AllDigits(t) then Finite(DecimalValue(t))
    else if |t| >= 2 && (t[0] == '+' || t[0] == '-') && AllDigits(t[1..]) then
      var m: int := DecimalValue(t[1..]);
      Finite(if t[0] == '-' then -m else m)
    else NaN
  }

  /**
    `String(v)` (section 7.1.17 of ECMA-262): an array is its elements joined
    with commas, `null` and `undefined` elements giving empty strings.
  */
  function ToJsString(v: Value): string
    decreases v, 1
  {
    match v
    case Undefined => "undefined"
    case Null => "null"
    case Bool(b) => if b then "true" else "false"
    case Number(n) => IntToString(n)
    case Str(s) => s
    case Array(items) => JoinElements(items)
    case Object(_) => "[object Object]"
  }

  /** The elements of an array joined with commas; `null` and `undefined` give empty strings. */
  function JoinElements(items: seq<Value>): string
    decreases items, 0
  {
    if items == [] then ""
    else
      var first := if items[0].Undefined? || items[0].Null? then "" else ToJsString(items[0]);
      if |items| == 1 then first else first + "," + JoinElements(items[1..])
  }

  /** `ToNumber(v)` (section 7.1.4 of ECMA-262); arrays and objects go through their string form. */
  function ToNumber(v: Value): Numeric {
    match v
    case Undefined => NaN
    case Null => Finite(0)
    case Bool(b) => Finite(if b then 1 else 0)
    case Number(n) => Finite(n)
    case Str(s) => StringToNumber(s)
    case Array(_) => StringToNumber(ToJsString(v))
    case Object(_) => StringToNumber(ToJsString(v))
  }

  /** A string of digits, with nothing around it, reads as its decimal value. */
  lemma DigitsRead(t: string)
    requires t != [] && AllDigits(t)
    ensures StringToNumber(t) == Finite(DecimalValue(t))
  {
    TrimOfTrimmed(t);
  }

  /** A minus sign followed by digits reads as the negated decimal value. */
  lemma NegativeDigitsRead(t: string)
    requires |t| >= 2 && t[0] == '-' && AllDigits(t[1..])
    ensures StringToNumber(t) == Finite(-(DecimalValue(t[1..]) as int))
  {
    assert IsDigit(t[1..][|t| - 2]);
    TrimOfTrimmed(t);
    assert !AllDigits(t) by { assert !IsDigit(t[0]); }
  }

  /** A number's decimal spelling reads back as that number. */
  lemma {:induction false} NumeralReadsBack(n: int)
    ensures StringToNumber(IntToString(n)) == Finite(n)
  {
    if n < 0 {
      var d := NatToString(-n);
      var t := "-" + d;
      assert t[1..] == d;
      NegativeDigitsRead(t);
    } else {
      DigitsRead(NatToString(n));
    }
  }

  /** A string value converts through `StringToNumber`. */
  lemma StrReadsAsString(s: string)
    ensures ToNumber(Str(s)) == StringToNumber(s)
  {
  }

  /** An array of one number or string reads as that element's spelling. */
  lemma SingletonReadsAsElement(v: Value)
    requires v.Number? || v.Str?
    ensures ToNumber(Array([v])) == StringToNumber(ToJsString(v))
  {
    assert [v][1..] == [];
    assert ToJsString(Array([v])) == ToJsString(v);
  }

  /** A number's decimal spelling reads back as that number: `"5"` is 5. */
  lemma {:induction false} NumeralStringReadsBack(n: int)
    ensures ToNumber(Str(IntToString(n))) == Finite(n)
  {
    NumeralReadsBack(n);
    StrReadsAsString(IntToString(n));
  }

  /** An array holding just a number reads as that number: `[5]` is 5. */
  lemma {:induction false} NumberArrayReadsBack(n: int)
    ensures ToNumber(Array([Number(n)])) == Finite(n)
  {
    NumeralReadsBack(n);
    SingletonReadsAsElement(Number(n));
  }
}
