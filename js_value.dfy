/**
 * The JavaScript values the ORM handles, and the parts of the language's
 * semantics it relies on: truthiness, property access (which throws a
 * TypeError on null and undefined), conversion to string, and the two
 * equalities `==` (loose, coercing) and `===` (strict).
 */
module JsValue {

  datatype Option<+T> = None | Some(value: T)

  /** A JavaScript value. Numbers are integers; an object is the finite map of
      its own enumerable properties; an array is the sequence of its elements. */
  datatype Value =
    | Undefined
    | Null
    | Bool(b: bool)
    | Num(n: int)
    | Str(s: string)
    | Arr(elems: seq<Value>)
    | Obj(props: map<string, Value>)

  /** What a call can throw: the library's own SchemaError, or the TypeError
      the runtime raises on a property access or call through null/undefined. */
  datatype Error = SchemaError(message: string) | TypeError

  /** The outcome of a call: its value, or what it threw. */
  datatype Result<+T> = Ok(value: T) | Throw(error: Error) {
    predicate IsFailure() { Throw? }
    function PropagateFailure<U>(): Result<U> requires Throw? { Throw(error) }
    function Extract(): T requires Ok? { value }
  }

  predicate Truthy(v: Value) {
    match v
    case Undefined => false
    case Null => false
    case Bool(b) => b
    case Num(n) => n != 0
    case Str(s) => s != ""
    case _ => true
  }

  predicate IsNullish(v: Value) { v.Undefined? || v.Null? }

  predicate IsPrimitive(v: Value) { !v.Arr? && !v.Obj? }

  /** `v || {}` */
  function OrEmpty(v: Value): Value {
    if Truthy(v) then v else Obj(map[])
  }

  /** `m[key]` on an object: an absent key reads as undefined. */
  function Lookup(m: map<string, Value>, key: string): Value {
    if key in m then m[key] else Undefined
  }

  // ---------------------------------------------------------------------
  // Decimal numerals: Number.prototype.toString and Number(string)

  function DigitChar(d: nat): char
    requires d < 10
  {
    ('0' as int + d) as char
  }

  predicate IsDigit(c: char) { '0' <= c <= '9' }

  predicate AllDigits(s: string) {
    forall i :: 0 <= i < |s| ==> IsDigit(s[i])
  }

  function NatToString(n: nat): string
    decreases n
  {
    if n < 10 then [DigitChar(n)] else NatToString(n / 10) + [DigitChar(n % 10)]
  }

  /** `n.toString()` for an integer. */
  function IntToString(n: int): string {
    if n < 0 then "-" + NatToString(-n) else NatToString(n)
  }

  /** The number a string of decimal digits denotes. */
  function DigitsValue(s: string): nat
    requires AllDigits(s)
  {
    if s == [] then 0 else 10 * DigitsValue(s[..|s| - 1]) + (s[|s| - 1] as int - '0' as int)
  }

  /** `Number(s)`, for the strings this model covers: the empty string is 0, an
      optional sign followed by decimal digits is that integer, and anything
      else is NaN (None). */
  function StringToNumber(s: string): Option<int> {
    if s == "" then Some(0)
    else if s[0] == '-' && |s| > 1 && AllDigits(s[1..]) then Some(-(DigitsValue(s[1..]) as int))
    else if s[0] == '+' && |s| > 1 && AllDigits(s[1..]) then Some(DigitsValue(s[1..]))
    else if AllDigits(s) then Some(DigitsValue(s))
    else None
  }

  lemma {:induction false} NatToStringDigits(n: nat)
    ensures NatToString(n) != "" && AllDigits(NatToString(n))
    ensures DigitsValue(NatToString(n)) == n
    decreases n
  {
    if n >= 10 {
      NatToStringDigits(n / 10);
      var t, c := NatToString(n / 10), DigitChar(n % 10);
      var s := t + [c];
      assert NatToString(n) == s;
      assert s[..|s| - 1] == t && s[|s| - 1] == c;
      forall i | 0 <= i < |s| ensures IsDigit(s[i]) {
        if i < |t| {
          assert s[i] == t[i];
        }
      }
      assert DigitsValue(s) == 10 * DigitsValue(t) + (c as int - '0' as int);
    }
  }

  /** A numeral without a sign reads as the number its digits denote. */
  lemma UnsignedNumeral(s: string)
    requires s != "" && AllDigits(s)
    ensures StringToNumber(s) == Some(DigitsValue(s) as int)
  {
    assert IsDigit(s[0]);
  }

  /** A minus sign followed by digits reads as the negated number. */
  lemma NegativeNumeral(t: string)
    requires t != "" && AllDigits(t)
    ensures StringToNumber("-" + t) == Some(-(DigitsValue(t) as int))
  {
    var s := "-" + t;
    assert s[0] == '-' && |s| > 1 && s[1..] == t;
  }

  /** Printing an integer and reading the numeral back gives the integer. */
  lemma IntToStringRoundTrip(n: int)
    ensures StringToNumber(IntToString(n)) == Some(n)
  {
    if n < 0 {
      var t := NatToString(-n);
      NatToStringDigits(-n);
      NegativeNumeral(t);
      assert IntToString(n) == "-" + t;
    } else {
      var t := NatToString(n);
      NatToStringDigits(n);
      UnsignedNumeral(t);
      assert IntToString(n) == t;
    }
  }

  /** The index a property key names in an array or string of length `len`:
      a key is an index exactly when it is the canonical numeral of one. */
  function ArrayIndex(key: string, len: nat): Option<nat> {
    match StringToNumber(key)
    case Some(i) => if 0 <= i < len && IntToString(i) == key then Some(i) else None
    case None => None
  }

  lemma ArrayIndexOfNumeral(i: nat, len: nat)
    requires i < len
    ensures ArrayIndex(IntToString(i), len) == Some(i)
  {
    IntToStringRoundTrip(i);
  }

  // ---------------------------------------------------------------------
  // Conversion to string and property access

  function JoinWithCommas(parts: seq<string>): string {
    if parts == [] then ""
    else if |parts| == 1 then parts[0]
    else parts[0] + "," + JoinWithCommas(parts[1..])
  }

  /** JavaScript's ToString, which is also how a value becomes a property key.
      An array joins its elements with commas, null and undefined elements
      printing as the empty string. */
  function ToString(v: Value): string
    decreases v
  {
    match v
    case Undefined => "undefined"
    case Null => "null"
    case Bool(b) => if b then "true" else "false"
    case Num(n) => IntToString(n)
    case Str(s) => s
    case Arr(es) =>
      JoinWithCommas(seq(|es|, i requires 0 <= i < |es| =>
        if IsNullish(es[i]) then "" else ToString(es[i])))
    case Obj(_) => "[object Object]"
  }

  /** `v[key]`: throws on null and undefined; arrays and strings answer
      `length` and their indices; any other missing property is undefined. */
  function Prop(v: Value, key: string): (r: Result<Value>)
    ensures r.Throw? <==> IsNullish(v)
    ensures v.Obj? ==> r == Ok(Lookup(v.props, key))
    ensures v.Arr? && key == "length" ==> r == Ok(Num(|v.elems|))
  {
    match v
    case Undefined => Throw(TypeError)
    case Null => Throw(TypeError)
    case Obj(m) => Ok(Lookup(m, key))
    case Arr(es) =>
      if key == "length" then Ok(Num(|es|))
      else (match ArrayIndex(key, |es|)
            case Some(i) => Ok(es[i])
            case None => Ok(Undefined))
    case Str(s) =>
      if key == "length" then Ok(Num(|s|))
      else (match ArrayIndex(key, |s|)
            case Some(i) => Ok(Str([s[i]]))
            case None => Ok(Undefined))
    case _ => Ok(Undefined)
  }

  /** `v[i]` on an array reads its i-th element. */
  lemma PropIndex(es: seq<Value>, i: nat)
    requires i < |es|
    ensures Prop(Arr(es), IntToString(i)) == Ok(es[i])
  {
    ArrayIndexOfNumeral(i, |es|);
    IntToStringRoundTrip(i);
    assert IntToString(i) != "length";
  }

  // ---------------------------------------------------------------------
  // Equality

  /** `a === b`. Primitives compare by value; for objects the model compares
      structure where JavaScript compares references. */
  predicate SameValue(a: Value, b: Value) { a == b }

  /** The primitive an operand of `==` is reduced to once it is not null or
      undefined: a boolean becomes 0 or 1, an object its string form. */
  function ToPrimitive(v: Value): Value {
    match v
    case Bool(b) => Num(if b then 1 else 0)
    case Arr(_) => Str(ToString(v))
    case Obj(_) => Str(ToString(v))
    case _ => v
  }

  /** `==` on two operands already reduced to numbers or strings: a string
      meets a number by conversion to number. */
  predicate PrimitiveLooseEq(a: Value, b: Value) {
    match (a, b)
    case (Num(x), Num(y)) => x == y
    case (Str(x), Str(y)) => x == y
    case (Num(x), Str(y)) => StringToNumber(y) == Some(x)
    case (Str(x), Num(y)) => StringToNumber(x) == Some(y)
    case _ => false
  }

  /** `a == b`: null and undefined equal each other and nothing else; two
      objects are equal only when they are the same object; otherwise both
      sides are reduced to numbers or strings and compared. */
  predicate LooseEq(a: Value, b: Value) {
    if IsNullish(a) || IsNullish(b) then IsNullish(a) && IsNullish(b)
    else if !IsPrimitive(a) && !IsPrimitive(b) then a == b
    else PrimitiveLooseEq(ToPrimitive(a), ToPrimitive(b))
  }

  lemma LooseEqSymmetric(a: Value, b: Value)
    ensures LooseEq(a, b) <==> LooseEq(b, a)
  {
  }

  /** An integer and its decimal numeral are loosely equal: a numeric id finds
      the record whose id is the same number written as a string. */
  lemma LooseEqNumeral(n: int)
    ensures LooseEq(Num(n), Str(IntToString(n)))
    ensures LooseEq(Str(IntToString(n)), Num(n))
  {
    IntToStringRoundTrip(n);
  }

  /** Strict equality implies loose equality. */
  lemma SameValueIsLooseEq(a: Value, b: Value)
    requires SameValue(a, b)
    ensures LooseEq(a, b)
  {
  }

  /** `==` is not transitive: "" == 0 and 0 == "0", yet "" != "0". */
  lemma LooseEqNotTransitive()
    ensures LooseEq(Str(""), Num(0)) && LooseEq(Num(0), Str("0"))
    ensures !LooseEq(Str(""), Str("0"))
  {
  }
}
