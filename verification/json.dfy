/** JSON values as `json.loads` produces them, together with the few pieces of
    Python semantics the frontend applies to them: `isinstance`, truthiness,
    numeric comparison against an `int` bound and `str()`. */
module Json {
  import opened Results

  /** `m * 2^e`, a binary floating-point value. */
  datatype Binary = Binary(m: int, e: int)

  const MANTISSA_LIMIT := 0x20_0000_0000_0000 // 2^53
  const NORMAL_MIN := 0x10_0000_0000_0000    // 2^52

  /** An IEEE 754 double as sign and significand times a power of two: zero
      is `0 * 2^0`; a normal double has a 53-bit significand (leading bit
      set) and an exponent from -1074 to 971; a subnormal one has a shorter
      significand and the least exponent. */
  predicate IsDouble(b: Binary) {
    || (b.m == 0 && b.e == 0)
    || (NORMAL_MIN <= Abs(b.m) < MANTISSA_LIMIT && -1074 <= b.e <= 971)
    || (0 < Abs(b.m) < NORMAL_MIN && b.e == -1074)
  }

  function Abs(i: int): nat {
    if i < 0 then -i else i
  }

  type Double = b: Binary | IsDouble(b) witness Binary(0, 0)

  /** A Python float: a finite double or one of the three special values that
      `json.loads` accepts (`NaN`, `Infinity`, `-Infinity`). Negative zero is
      not represented. */
  datatype Float = Finite(d: Double) | PosInf | NegInf | NaN

  function Pow2(n: nat): (p: nat)
    ensures p > 0
  {
    if n == 0 then 1 else 2 * Pow2(n - 1)
  }

  /** The exact value `m * 2^e`. */
  function ValueOf(d: Binary): real {
    if d.e >= 0 then (d.m * Pow2(d.e)) as real else d.m as real / Pow2(-d.e) as real
  }

  /** Doubling the significand is raising the exponent by one. */
  lemma DoubleStep(m: int, e: int)
    ensures ValueOf(Binary(2 * m, e)) == ValueOf(Binary(m, e + 1))
  {
    if e >= 0 {
      assert Pow2(e + 1) == 2 * Pow2(e);
      assert 2 * m * Pow2(e) == m * (2 * Pow2(e));
    } else if e == -1 {
      assert Pow2(1) == 2;
    } else {
      var p := Pow2(-e - 1) as real;
      assert Pow2(-e) == 2 * Pow2(-e - 1);
      assert (2 * m) as real / (2.0 * p) == m as real / p;
    }
  }

  /** A significand shifted left by `d` bits is the exponent raised by `d`. */
  lemma {:induction false} Shift(m: int, e: int, d: nat)
    ensures ValueOf(Binary(m * Pow2(d), e)) == ValueOf(Binary(m, e + d))
    decreases d
  {
    if d > 0 {
      var p := Pow2(d - 1);
      assert Pow2(d) == 2 * p;
      assert m * (2 * p) == (2 * m) * p;
      Shift(2 * m, e, d - 1);
      DoubleStep(m, e + d - 1);
    }
  }

  /** At one exponent, the value determines the significand. */
  lemma SameExponent(x: int, y: int, e: int)
    requires ValueOf(Binary(x, e)) == ValueOf(Binary(y, e))
    ensures x == y
  {
    if e >= 0 {
      var p := Pow2(e);
      assert x * p == y * p;
    } else {
      var p := Pow2(-e) as real;
      assert x as real == (x as real / p) * p;
      assert y as real == (y as real / p) * p;
    }
  }

  /** A nonzero significand shifted left stays nonzero, and a normal one
      shifted by a bit or more no longer fits in 53 bits. */
  lemma Widened(b: Double, d: nat)
    ensures b.m != 0 ==> b.m * Pow2(d) != 0
    ensures b.m != 0 && d > 0 && b.e > -1074 ==> Abs(b.m * Pow2(d)) >= MANTISSA_LIMIT
  {
    var p := Pow2(d);
    if b.m != 0 && d > 0 && b.e > -1074 {
      assert p == 2 * Pow2(d - 1) && p >= 2;
      assert Abs(b.m * p) == Abs(b.m) * p;
      assert Abs(b.m) * p >= Abs(b.m) * 2;
    }
  }

  lemma {:induction false} OrderedUnique(a: Double, b: Double)
    requires a.e <= b.e && ValueOf(a) == ValueOf(b)
    ensures a == b
  {
    var d := b.e - a.e;
    Shift(b.m, a.e, d);
    SameExponent(a.m, b.m * Pow2(d), a.e);
    Widened(b, d);
  }

  /** Each finite double has exactly one form: distinct forms denote
      distinct values, so a serializer that prints the value can read the
      form back. */
  lemma DoubleUnique(a: Double, b: Double)
    ensures ValueOf(a) == ValueOf(b) <==> a == b
  {
    if ValueOf(a) == ValueOf(b) {
      if a.e <= b.e {
        OrderedUnique(a, b);
      } else {
        OrderedUnique(b, a);
      }
    }
  }

  /** A number as Python compares it: exactly, with the infinities at the
      ends and NaN unordered. */
  datatype Num = Exact(r: real) | PlusInfinity | MinusInfinity | Unordered

  datatype Json =
    | JNull
    | JBool(b: bool)
    | JInt(i: int)
    | JFloat(f: Float)
    | JStr(s: string)
    | JList(items: seq<Json>)
    | JObject(fields: map<string, Json>)

  /** The Python types a field spec may name; `Dict` is reported as "record". */
  datatype PyType = Bool | Int | Float | Str | List | Dict

  /** `isinstance(v, t)`: `bool` is a subclass of `int`, so a boolean is an
      instance of `Int` as well as of `Bool`. */
  predicate IsInstance(v: Json, t: PyType)
    ensures IsInstance(v, t) <==> TypeOf(v) == Some(t) || (t == Int && TypeOf(v) == Some(Bool))
  {
    match t
    case Bool => v.JBool?
    case Int => v.JInt? || v.JBool?
    case Float => v.JFloat?
    case Str => v.JStr?
    case List => v.JList?
    case Dict => v.JObject?
  }

  /** `type(v)`, the class `json.loads` gives a value; `None` has a class
      of its own that no spec names. */
  function TypeOf(v: Json): Option<PyType> {
    match v
    case JNull => None
    case JBool(_) => Some(Bool)
    case JInt(_) => Some(Int)
    case JFloat(_) => Some(Float)
    case JStr(_) => Some(Str)
    case JList(_) => Some(List)
    case JObject(_) => Some(Dict)
  }

  /** The frontend's name for a Python type in error messages. */
  function TypeName(t: PyType): string {
    match t
    case Bool => "bool"
    case Int => "int"
    case Float => "float"
    case Str => "str"
    case List => "list"
    case Dict => "record"
  }

  /** `d.get(name, None)`: an absent field and a field holding JSON `null` both
      read as `None`. */
  function FieldValue(m: map<string, Json>, name: string): (r: Option<Json>)
    ensures r.None? <==> name !in m || m[name] == JNull
    ensures r.Some? ==> name in m && r.value == m[name] && r.value != JNull
  {
    if name in m && m[name] != JNull then Some(m[name]) else None
  }

  /** The number a float denotes in a comparison. */
  function NumOf(f: Float): Num {
    match f
    case Finite(d) => Exact(ValueOf(d))
    case PosInf => PlusInfinity
    case NegInf => MinusInfinity
    case NaN => Unordered
  }

  /** The number a value denotes in a Python comparison with an `int`; `None`
      when the comparison raises `TypeError` (strings, lists, dicts, null). */
  function AsNumber(v: Json): (r: Option<Num>)
    ensures r.Some? <==> v.JBool? || v.JInt? || v.JFloat?
    ensures v.JInt? ==> r == Some(Exact(v.i as real))
    ensures v.JBool? ==> r == Some(Exact(if v.b then 1.0 else 0.0))
    ensures v.JFloat? && v.f.Finite? ==> r == Some(Exact(ValueOf(v.f.d)))
    ensures v.JFloat? && !v.f.Finite? ==> !r.value.Exact?
  {
    match v
    case JBool(b) => Some(Exact(if b then 1.0 else 0.0))
    case JInt(i) => Some(Exact(i as real))
    case JFloat(f) => Some(NumOf(f))
    case _ => None
  }

  /** `n < k` in Python, for a float or int `n` and an int `k`. */
  predicate Below(n: Num, k: int) {
    match n
    case Exact(r) => r < k as real
    case MinusInfinity => true
    case PlusInfinity => false
    case Unordered => false
  }

  /** `n > k` in Python, for a float or int `n` and an int `k`. */
  predicate Above(n: Num, k: int) {
    match n
    case Exact(r) => r > k as real
    case PlusInfinity => true
    case MinusInfinity => false
    case Unordered => false
  }

  /** Python truthiness (`if not cmd`). */
  predicate Truthy(v: Json)
    // the falsy values are exactly None, False, 0, 0.0, "", [] and {}
    ensures !Truthy(v) <==>
              || v == JNull || v == JBool(false) || v == JInt(0) || v == JFloat(Finite(Binary(0, 0)))
              || v == JStr("") || v == JList([]) || v == JObject(map[])
  {
    match v
    case JNull => false
    case JBool(b) => b
    case JInt(i) => i != 0
    case JFloat(f) => !(f.Finite? && f.d.m == 0)
    case JStr(s) => |s| > 0
    case JList(items) => |items| > 0
    case JObject(fields) => |fields| > 0
  }

  function DigitChar(d: nat): (c: char)
    requires d < 10
    ensures '0' <= c <= '9' && (c as int) - ('0' as int) == d
  {
    "0123456789"[d]
  }

  predicate IsDigit(c: char) {
    '0' <= c <= '9'
  }

  /** The value of a string of decimal digits. */
  function DigitsValue(s: string): nat
    requires forall i :: 0 <= i < |s| ==> IsDigit(s[i])
  {
    if s == [] then 0
    else
      assert IsDigit(s[|s| - 1]);
      10 * DigitsValue(s[..|s| - 1]) + ((s[|s| - 1] as int) - ('0' as int))
  }

  /** `str(n)` for a natural number: its decimal digits, without leading zeros. */
  function Digits(n: nat): (s: string)
    ensures |s| > 0
    ensures forall i :: 0 <= i < |s| ==> IsDigit(s[i])
    ensures s[0] == '0' ==> n == 0
    decreases n
  {
    if n < 10 then [DigitChar(n)] else Digits(n / 10) + [DigitChar(n % 10)]
  }

  /** Reading back the digits of `n` gives `n`: the rendering loses nothing. */
  lemma {:induction false} DigitsRoundTrip(n: nat)
    ensures DigitsValue(Digits(n)) == n
    decreases n
  {
    if n >= 10 {
      DigitsRoundTrip(n / 10);
      var s := Digits(n);
      assert s[..|s| - 1] == Digits(n / 10);
    }
  }

  /** `str(i)` for a Python int: a minus sign for negative numbers. */
  function Decimal(i: int): (s: string)
    ensures |s| > 0
    ensures i < 0 <==> s[0] == '-'
    ensures i >= 0 ==> s == Digits(i)
    ensures i < 0 ==> s[1..] == Digits(-i)
  {
    if i < 0 then "-" + Digits(-i) else Digits(i)
  }

  /** `str(v)` for a decoded JSON value. `repr` stands for the interpreter's
      rendering of floats, lists and dicts, which this model leaves abstract. */
  function PyStr(v: Json, repr: Json -> string): (s: string)
    ensures v.JStr? ==> s == v.s
    ensures v.JInt? ==> s == Decimal(v.i)
    ensures v.JBool? ==> s == (if v.b then "True" else "False")
    ensures v.JNull? ==> s == "None"
  {
    match v
    case JNull => "None"
    case JBool(b) => if b then "True" else "False"
    case JInt(i) => Decimal(i)
    case JStr(s) => s
    case _ => repr(v)
  }
}
