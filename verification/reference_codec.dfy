/** A serializer that meets `Codec.Lawful`: a tagged, self-delimiting byte
    encoding of JSON values with its decoder. It shows that the round-trip
    hypothesis the frontend's framing lemmas rest on can be met. */
module ReferenceCodec {
  import opened Results
  import opened Json
  import opened Codec

  /** A natural number in unary: `n` one-bytes, then a zero byte. */
  ghost function EncNat(n: nat): Frame {
    if n == 0 then [0] else [1] + EncNat(n - 1)
  }

  /** Decoders return the value read and the bytes after it. */
  ghost function DecNat(b: Frame): (r: Option<(nat, Frame)>)
    ensures r.Some? ==> |r.value.1| < |b|
  {
    if |b| == 0 then None
    else if b[0] == 0 then Some((0, b[1..]))
    else match DecNat(b[1..])
      case None => None
      case Some((n, rest)) => Some((n + 1, rest))
  }

  lemma {:induction false} NatRoundTrip(n: nat, rest: Frame)
    ensures DecNat(EncNat(n) + rest) == Some((n, rest))
  {
    var b := EncNat(n) + rest;
    if n == 0 {
      assert b[1..] == rest;
    } else {
      assert b[1..] == EncNat(n - 1) + rest;
      NatRoundTrip(n - 1, rest);
    }
  }

  /** An integer: a sign byte, then its magnitude (less one when negative). */
  ghost function EncInt(i: int): Frame {
    if i >= 0 then [0] + EncNat(i) else [1] + EncNat(-i - 1)
  }

  ghost function DecInt(b: Frame): (r: Option<(int, Frame)>)
    ensures r.Some? ==> |r.value.1| < |b|
  {
    if |b| == 0 then None
    else match DecNat(b[1..])
      case None => None
      case Some((n, rest)) => Some((if b[0] == 0 then n as int else -(n as int) - 1, rest))
  }

  /** The bytes after a tag byte. */
  lemma Behind(tag: byte, x: Frame, y: Frame, z: Frame, rest: Frame)
    ensures ([tag] + x + y + z + rest)[0] == tag
    ensures ([tag] + x + y + z + rest)[1..] == x + (y + (z + rest))
  {
  }

  lemma IntStep(b: Frame, n: nat, rest: Frame)
    requires |b| > 0 && DecNat(b[1..]) == Some((n, rest))
    ensures DecInt(b) == Some((if b[0] == 0 then n as int else -(n as int) - 1, rest))
  {
  }

  lemma TagStep(tag: byte, x: Frame, rest: Frame)
    ensures ([tag] + x + rest)[0] == tag && ([tag] + x + rest)[1..] == x + rest
  {
  }

  lemma IntRoundTrip(i: int, rest: Frame)
    ensures DecInt(EncInt(i) + rest) == Some((i, rest))
  {
    var n: nat := if i >= 0 then i else -i - 1;
    var tag: byte := if i >= 0 then 0 else 1;
    assert EncInt(i) == [tag] + EncNat(n);
    TagStep(tag, EncNat(n), rest);
    NatRoundTrip(n, rest);
    IntStep(EncInt(i) + rest, n, rest);
  }

  /** A character by its code point. */
  ghost function DecChar(b: Frame): (r: Option<(char, Frame)>)
    ensures r.Some? ==> |r.value.1| < |b|
  {
    match DecNat(b)
    case None => None
    case Some((n, rest)) =>
      if n < 0xD800 || 0xE000 <= n < 0x11_0000 then Some((n as char, rest)) else None
  }

  lemma CharRoundTrip(c: char, rest: Frame)
    ensures DecChar(EncNat(c as int) + rest) == Some((c, rest))
  {
    NatRoundTrip(c as int, rest);
  }

  /** A string: each character behind a one-byte, then a zero byte. */
  ghost function EncStr(s: string): Frame {
    if s == [] then [0] else [1] + EncNat(s[0] as int) + EncStr(s[1..])
  }

  ghost function DecStr(b: Frame): (r: Option<(string, Frame)>)
    ensures r.Some? ==> |r.value.1| < |b|
    decreases |b|
  {
    if |b| == 0 then None
    else if b[0] == 0 then Some(([], b[1..]))
    else match DecChar(b[1..])
      case None => None
      case Some((c, r1)) =>
        match DecStr(r1)
        case None => None
        case Some((t, r2)) => Some(([c] + t, r2))
  }

  lemma {:induction false} StrRoundTrip(s: string, rest: Frame)
    ensures DecStr(EncStr(s) + rest) == Some((s, rest))
    decreases |s|
  {
    var b := EncStr(s) + rest;
    if s == [] {
      assert b[1..] == rest;
    } else {
      assert b[1..] == EncNat(s[0] as int) + (EncStr(s[1..]) + rest);
      CharRoundTrip(s[0], EncStr(s[1..]) + rest);
      StrRoundTrip(s[1..], rest);
      assert [s[0]] + s[1..] == s;
    }
  }

  ghost function EncFloat(f: Float): Frame {
    match f
    case Finite(d) => [0] + EncInt(d.m) + EncInt(d.e)
    case PosInf => [1]
    case NegInf => [2]
    case NaN => [3]
  }

  ghost function DecFloat(b: Frame): (r: Option<(Float, Frame)>)
    ensures r.Some? ==> |r.value.1| < |b|
  {
    if |b| == 0 then None
    else if b[0] == 1 then Some((PosInf, b[1..]))
    else if b[0] == 2 then Some((NegInf, b[1..]))
    else if b[0] == 3 then Some((NaN, b[1..]))
    else match DecInt(b[1..])
      case None => None
      case Some((m, r1)) =>
        match DecInt(r1)
        case None => None
        case Some((e, r2)) => if IsDouble(Binary(m, e)) then Some((Finite(Binary(m, e)), r2)) else None
  }

  lemma FiniteStep(b: Frame, m: int, r1: Frame, e: int, rest: Frame)
    requires |b| > 0 && b[0] == 0
    requires DecInt(b[1..]) == Some((m, r1)) && DecInt(r1) == Some((e, rest))
    requires IsDouble(Binary(m, e))
    ensures DecFloat(b) == Some((Finite(Binary(m, e)), rest))
  {
  }

  lemma FiniteRoundTrip(d: Double, rest: Frame)
    ensures DecFloat(EncFloat(Finite(d)) + rest) == Some((Finite(d), rest))
  {
    var r1 := EncInt(d.e) + rest;
    var b := EncFloat(Finite(d)) + rest;
    assert EncFloat(Finite(d)) == [0] + EncInt(d.m) + EncInt(d.e);
    Behind(0, EncInt(d.m), EncInt(d.e), [], rest);
    assert [0] + EncInt(d.m) + EncInt(d.e) + [] == EncFloat(Finite(d));
    assert [] + rest == rest;
    IntRoundTrip(d.m, r1);
    IntRoundTrip(d.e, rest);
    FiniteStep(b, d.m, r1, d.e, rest);
    assert Binary(d.m, d.e) == d;
  }

  lemma FloatRoundTrip(f: Float, rest: Frame)
    ensures DecFloat(EncFloat(f) + rest) == Some((f, rest))
  {
    if f.Finite? {
      FiniteRoundTrip(f.d, rest);
    } else {
      assert (EncFloat(f) + rest)[1..] == rest;
    }
  }

  /** The key an object's encoding starts with; any fixed choice will do. */
  ghost function Pick(m: map<string, Json>): string
    requires m != map[]
    ensures Pick(m) in m
  {
    var k :| k in m; k
  }

  /** A JSON value: a tag byte, then its payload. */
  ghost function EncJson(v: Json): Frame
    decreases v, 1, 0
  {
    match v
    case JNull => [0]
    case JBool(b) => [1, if b then 1 else 0]
    case JInt(i) => [2] + EncInt(i)
    case JFloat(f) => [3] + EncFloat(f)
    case JStr(s) => [4] + EncStr(s)
    case JList(items) => [5] + EncItems(v, items)
    case JObject(m) => [6] + EncFields(v, m)
  }

  /** List elements, each behind a one-byte, then a zero byte. */
  ghost function EncItems(parent: Json, items: seq<Json>): Frame
    requires forall i :: 0 <= i < |items| ==> items[i] < parent
    decreases parent, 0, |items|
  {
    if items == [] then [0] else [1] + EncJson(items[0]) + EncItems(parent, items[1..])
  }

  /** Object fields, each key and value behind a one-byte, then a zero
      byte. */
  ghost function EncFields(parent: Json, m: map<string, Json>): Frame
    requires forall k :: k in m ==> m[k] < parent
    decreases parent, 0, |m|
  {
    if m == map[] then [0]
    else
      var k := Pick(m);
      [1] + EncStr(k) + EncJson(m[k]) + EncFields(parent, m - {k})
  }

  ghost function DecJson(b: Frame): (r: Option<(Json, Frame)>)
    ensures r.Some? ==> |r.value.1| < |b|
    decreases |b|, 1
  {
    if |b| == 0 then None
    else if b[0] == 0 then Some((JNull, b[1..]))
    else if b[0] == 1 then (if |b| < 2 then None else Some((JBool(b[1] == 1), b[2..])))
    else if b[0] == 2 then
      match DecInt(b[1..])
      case None => None
      case Some((i, rest)) => Some((JInt(i), rest))
    else if b[0] == 3 then
      match DecFloat(b[1..])
      case None => None
      case Some((f, rest)) => Some((JFloat(f), rest))
    else if b[0] == 4 then
      match DecStr(b[1..])
      case None => None
      case Some((s, rest)) => Some((JStr(s), rest))
    else if b[0] == 5 then
      match DecItems(b[1..])
      case None => None
      case Some((items, rest)) => Some((JList(items), rest))
    else
      match DecFields(b[1..])
      case None => None
      case Some((m, rest)) => Some((JObject(m), rest))
  }

  ghost function DecItems(b: Frame): (r: Option<(seq<Json>, Frame)>)
    ensures r.Some? ==> |r.value.1| < |b|
    decreases |b|, 0
  {
    if |b| == 0 then None
    else if b[0] == 0 then Some(([], b[1..]))
    else match DecJson(b[1..])
      case None => None
      case Some((v, r1)) =>
        match DecItems(r1)
        case None => None
        case Some((vs, r2)) => Some(([v] + vs, r2))
  }

  ghost function DecFields(b: Frame): (r: Option<(map<string, Json>, Frame)>)
    ensures r.Some? ==> |r.value.1| < |b|
    decreases |b|, 0
  {
    if |b| == 0 then None
    else if b[0] == 0 then Some((map[], b[1..]))
    else match DecStr(b[1..])
      case None => None
      case Some((k, r1)) =>
        match DecJson(r1)
        case None => None
        case Some((v, r2)) =>
          match DecFields(r2)
          case None => None
          case Some((m, r3)) => Some((m[k := v], r3))
  }

  lemma {:induction false} JsonRoundTrip(v: Json, rest: Frame)
    ensures DecJson(EncJson(v) + rest) == Some((v, rest))
    decreases v, 1, 0
  {
    var b := EncJson(v) + rest;
    match v
    case JNull => TagStep(0, [], rest);
    case JBool(x) => assert b[0] == 1 && b[2..] == rest;
    case JInt(i) =>
      TagStep(2, EncInt(i), rest);
      IntRoundTrip(i, rest);
    case JFloat(f) =>
      TagStep(3, EncFloat(f), rest);
      FloatRoundTrip(f, rest);
    case JStr(s) =>
      TagStep(4, EncStr(s), rest);
      StrRoundTrip(s, rest);
    case JList(items) =>
      TagStep(5, EncItems(v, items), rest);
      ItemsRoundTrip(v, items, rest);
    case JObject(m) =>
      TagStep(6, EncFields(v, m), rest);
      FieldsRoundTrip(v, m, rest);
  }

  lemma ItemsShape(parent: Json, items: seq<Json>, rest: Frame)
    requires forall i :: 0 <= i < |items| ==> items[i] < parent
    requires items != []
    ensures var b := EncItems(parent, items) + rest;
            && |b| > 0 && b[0] == 1
            && b[1..] == EncJson(items[0]) + (EncItems(parent, items[1..]) + rest)
  {
    var x, y := EncJson(items[0]), EncItems(parent, items[1..]);
    assert EncItems(parent, items) == [1] + x + y + [];
    Behind(1, x, y, [], rest);
    assert y + ([] + rest) == y + rest;
  }

  /** Decoding one list element and then the rest of the list. */
  lemma ItemStep(b: Frame, x: Json, tail: Frame, xs: seq<Json>, rest: Frame)
    requires |b| > 0 && b[0] == 1
    requires DecJson(b[1..]) == Some((x, tail))
    requires DecItems(tail) == Some((xs, rest))
    ensures DecItems(b) == Some(([x] + xs, rest))
  {
  }

  lemma {:induction false} ItemsRoundTrip(parent: Json, items: seq<Json>, rest: Frame)
    requires forall i :: 0 <= i < |items| ==> items[i] < parent
    ensures DecItems(EncItems(parent, items) + rest) == Some((items, rest))
    decreases parent, 0, |items|
  {
    var b := EncItems(parent, items) + rest;
    if items == [] {
      assert b[1..] == rest;
    } else {
      var tail := EncItems(parent, items[1..]) + rest;
      ItemsShape(parent, items, rest);
      JsonRoundTrip(items[0], tail);
      ItemsRoundTrip(parent, items[1..], rest);
      ItemStep(b, items[0], tail, items[1..], rest);
      assert [items[0]] + items[1..] == items;
    }
  }

  /** Decoding one field and then the rest of the object. */
  lemma FieldStep(b: Frame, k: string, r1: Frame, v: Json, tail: Frame, others: map<string, Json>, rest: Frame)
    requires |b| > 0 && b[0] == 1
    requires DecStr(b[1..]) == Some((k, r1))
    requires DecJson(r1) == Some((v, tail))
    requires DecFields(tail) == Some((others, rest))
    ensures DecFields(b) == Some((others[k := v], rest))
  {
  }

  lemma FieldsShape(parent: Json, m: map<string, Json>, rest: Frame)
    requires forall k :: k in m ==> m[k] < parent
    requires m != map[]
    ensures var b := EncFields(parent, m) + rest;
            && |b| > 0 && b[0] == 1
            && b[1..] == EncStr(Pick(m)) + (EncJson(m[Pick(m)]) + (EncFields(parent, m - {Pick(m)}) + rest))
  {
    var k := Pick(m);
    var x, y, z := EncStr(k), EncJson(m[k]), EncFields(parent, m - {k});
    assert EncFields(parent, m) == [1] + x + y + z;
    Behind(1, x, y, z, rest);
  }

  lemma Reinsert(m: map<string, Json>, k: string)
    requires k in m
    ensures (m - {k})[k := m[k]] == m
  {
  }

  lemma {:induction false} FieldsRoundTrip(parent: Json, m: map<string, Json>, rest: Frame)
    requires forall k :: k in m ==> m[k] < parent
    ensures DecFields(EncFields(parent, m) + rest) == Some((m, rest))
    decreases parent, 0, |m|
  {
    if m == map[] {
      assert (EncFields(parent, m) + rest)[1..] == rest;
    } else {
      var k := Pick(m);
      var others := m - {k};
      var tail := EncFields(parent, others) + rest;
      var r1 := EncJson(m[k]) + tail;
      FieldsShape(parent, m, rest);
      StrRoundTrip(k, r1);
      JsonRoundTrip(m[k], tail);
      FieldsRoundTrip(parent, others, rest);
      FieldStep(EncFields(parent, m) + rest, k, r1, m[k], tail, others, rest);
      Reinsert(m, k);
    }
  }

  /** `json.loads` of this encoding: the codec byte, then one value. */
  ghost function Loads(b: Frame): Result<Json, string> {
    if |b| == 0 || b[0] != JSON_CODEC then Failure("JSONDecodeError")
    else match DecJson(b[1..])
      case None => Failure("JSONDecodeError")
      case Some((v, _)) => Success(v)
  }

  /** The reference serializer round-trips every value, so `Lawful` is not
      a vacuous hypothesis. */
  lemma LawfulSerializerExists()
    ensures exists ser :: Lawful(ser)
  {
    var ser := Serializer(v => EncJson(v), b => Loads(b));
    forall v: Json
      ensures ser.loads([JSON_CODEC] + ser.dumps(v)) == Success(v)
    {
      JsonRoundTrip(v, []);
      assert ([JSON_CODEC] + EncJson(v))[1..] == EncJson(v) + [];
    }
    assert Lawful(ser);
  }
}
