/** The declarative schema checker: `check_spec` and `check_content`. */
module Validator {
  import opened Results
  import opened Json
  import opened Exceptions

  /** The `(min, max)` tail of a four-element spec; either may be `None`. */
  datatype Bounds = Bounds(lo: Option<int>, hi: Option<int>)

  /** `(name, type)` has no bounds; `(name, type, min, max)` has them. */
  datatype FieldSpec = FieldSpec(name: string, ty: PyType, bounds: Option<Bounds>)

  /** Bounds only on a numeric type, so a range check never compares a
      string, list or dict against an int. Every spec of the frontend's table
      is of this kind. */
  predicate WellFormed(spec: FieldSpec) {
    spec.bounds.Some? ==> spec.ty in {Bool, Int, Float}
  }

  function MissingField(name: string): string {
    "missing field: " + name
  }

  function WrongType(name: string, t: PyType): string {
    "field '" + name + "' has wrong type, expected type: " + TypeName(t)
  }

  function TooSmall(name: string, lo: int): string {
    "field '" + name + "' must have a value greater than " + Decimal(lo)
  }

  function TooLarge(name: string, hi: int): string {
    "field '" + name + "' must have a value less than " + Decimal(hi)
  }

  /** The value lies within the given bounds, each inclusive; a `None` bound
      admits everything. */
  predicate WithinBounds(n: Num, b: Bounds) {
    && (b.lo.None? || !Below(n, b.lo.value))
    && (b.hi.None? || !Above(n, b.hi.value))
  }

  /** The two range tests of `check_spec`, minimum first. */
  function CheckRange(name: string, v: Json, b: Bounds): (r: Outcome<Exception>)
    // comparing a non-number with an int bound raises TypeError
    ensures AsNumber(v).None? ==> r == (if b.lo.Some? || b.hi.Some? then Fail(Unexpected("TypeError")) else Pass)
    // a number passes exactly when it lies within the inclusive bounds
    ensures AsNumber(v).Some? ==> (r == Pass <==> WithinBounds(AsNumber(v).value, b))
    // the minimum is reported first, then the maximum
    ensures AsNumber(v).Some? && b.lo.Some? && Below(AsNumber(v).value, b.lo.value) ==>
              r == Fail(InvalidArguments(TooSmall(name, b.lo.value)))
    ensures AsNumber(v).Some? && !WithinBounds(AsNumber(v).value, b) && !(b.lo.Some? && Below(AsNumber(v).value, b.lo.value)) ==>
              b.hi.Some? && r == Fail(InvalidArguments(TooLarge(name, b.hi.value)))
    // NaN compares false with everything, so it passes any bounds
    ensures v == JFloat(NaN) ==> r == Pass
  {
    if b.lo.Some? && AsNumber(v).None? then Fail(Unexpected("TypeError"))
    else if b.lo.Some? && Below(AsNumber(v).value, b.lo.value) then Fail(InvalidArguments(TooSmall(name, b.lo.value)))
    else if b.hi.Some? && AsNumber(v).None? then Fail(Unexpected("TypeError"))
    else if b.hi.Some? && Above(AsNumber(v).value, b.hi.value) then Fail(InvalidArguments(TooLarge(name, b.hi.value)))
    else Pass
  }

  /** `d` is a dict holding a non-null `spec.name` of the spec's type. */
  predicate PresentAs(d: Json, spec: FieldSpec) {
    d.JObject? && FieldValue(d.fields, spec.name).Some? && IsInstance(d.fields[spec.name], spec.ty)
  }

  /** `check_spec(d, spec, optional)`: presence, then type, then range. */
  function CheckSpec(d: Json, spec: FieldSpec, optional: bool): (r: Outcome<Exception>)
    // `d.get` exists only on a dict
    ensures !d.JObject? ==> r == Fail(Unexpected("AttributeError"))
    // absent or null: never an error when optional, "missing field" otherwise
    ensures d.JObject? && FieldValue(d.fields, spec.name).None? ==>
              r == (if optional then Pass else Fail(InvalidArguments(MissingField(spec.name))))
    // present with the wrong type: an error naming the field and the type
    ensures d.JObject? && FieldValue(d.fields, spec.name).Some? && !IsInstance(d.fields[spec.name], spec.ty) ==>
              r == Fail(InvalidArguments(WrongType(spec.name, spec.ty)))
    // present, right type, no range: accepted
    ensures PresentAs(d, spec) && spec.bounds.None? ==> r == Pass
    // present, right type, numeric: accepted exactly when within the inclusive bounds
    ensures PresentAs(d, spec) &&
            spec.bounds.Some? && AsNumber(d.fields[spec.name]).Some? ==>
              (r == Pass <==> WithinBounds(AsNumber(d.fields[spec.name]).value, spec.bounds.value))
    // below the minimum: reported as such, before the maximum is looked at
    ensures PresentAs(d, spec) &&
            spec.bounds.Some? && spec.bounds.value.lo.Some? && AsNumber(d.fields[spec.name]).Some? &&
            Below(AsNumber(d.fields[spec.name]).value, spec.bounds.value.lo.value) ==>
              r == Fail(InvalidArguments(TooSmall(spec.name, spec.bounds.value.lo.value)))
    // above the maximum and not below the minimum
    ensures PresentAs(d, spec) &&
            spec.bounds.Some? && spec.bounds.value.hi.Some? && AsNumber(d.fields[spec.name]).Some? &&
            !WithinBounds(AsNumber(d.fields[spec.name]).value, spec.bounds.value) &&
            (spec.bounds.value.lo.None? || !Below(AsNumber(d.fields[spec.name]).value, spec.bounds.value.lo.value)) ==>
              r == Fail(InvalidArguments(TooLarge(spec.name, spec.bounds.value.hi.value)))
    // on a dict, a well-formed spec fails only with InvalidArguments
    ensures d.JObject? && WellFormed(spec) && r.Fail? ==> r.error.InvalidArguments?
    // never a codec or decoding error
    ensures r.Fail? ==> r.error.InvalidArguments? || r.error.Unexpected?
  {
    if !d.JObject? then Fail(Unexpected("AttributeError"))
    else
      match FieldValue(d.fields, spec.name)
      case None => if optional then Pass else Fail(InvalidArguments(MissingField(spec.name)))
      case Some(v) =>
        if !IsInstance(v, spec.ty) then Fail(InvalidArguments(WrongType(spec.name, spec.ty)))
        else if spec.bounds.None? then Pass
        else CheckRange(spec.name, v, spec.bounds.value)
  }

  /** Every spec of `specs` is satisfied. */
  ghost predicate AllPass(d: Json, specs: seq<FieldSpec>, optional: bool) {
    forall i :: 0 <= i < |specs| ==> CheckSpec(d, specs[i], optional).Pass?
  }

  /** `specs[i]` is the first spec `d` violates, and it fails with `r`. */
  ghost predicate FirstFailureAt(d: Json, specs: seq<FieldSpec>, optional: bool, i: int, r: Outcome<Exception>) {
    && 0 <= i < |specs|
    && CheckSpec(d, specs[i], optional) == r
    && r.Fail?
    && forall j :: 0 <= j < i ==> CheckSpec(d, specs[j], optional).Pass?
  }

  /** One `for spec in specs: check_spec(d, spec, optional)` loop. */
  function CheckAll(d: Json, specs: seq<FieldSpec>, optional: bool): (r: Outcome<Exception>)
    ensures r.Pass? <==> AllPass(d, specs, optional)
    ensures r.Fail? ==> exists i :: FirstFailureAt(d, specs, optional, i, r)
    ensures r.Fail? ==> r.error.InvalidArguments? || r.error.Unexpected?
    decreases |specs|
  {
    if specs == [] then Pass
    else match CheckSpec(d, specs[0], optional)
      case Fail(e) =>
        assert e.InvalidArguments? || e.Unexpected?;
        assert FirstFailureAt(d, specs, optional, 0, Fail(e));
        Fail(e)
      case Pass =>
        var rest := CheckAll(d, specs[1..], optional);
        assert forall i :: 1 <= i < |specs| ==> specs[i] == specs[1..][i - 1];
        if rest.Fail? then
          assert forall k | FirstFailureAt(d, specs[1..], optional, k, rest) ::
            FirstFailureAt(d, specs, optional, k + 1, rest);
          rest
        else
          rest
  }

  /** `check_content(d, req_specs, opt_specs)`: all required specs in order,
      then all optional specs in order; the first violation is raised. */
  function CheckContent(d: Json, req: seq<FieldSpec>, opt: seq<FieldSpec>): (r: Outcome<Exception>)
    ensures r.Pass? <==> AllPass(d, req, false) && AllPass(d, opt, true)
    // a required violation is always the one reported
    ensures !AllPass(d, req, false) ==> exists i :: FirstFailureAt(d, req, false, i, r)
    // otherwise the first optional violation
    ensures AllPass(d, req, false) && !AllPass(d, opt, true) ==> exists i :: FirstFailureAt(d, opt, true, i, r)
    ensures r.Fail? ==> r.error.InvalidArguments? || r.error.Unexpected?
  {
    match CheckAll(d, req, false)
    case Fail(e) => Fail(e)
    case Pass => CheckAll(d, opt, true)
  }

  /** With no specs at all `d` is never looked at, so any content passes,
      even one that is not a dict. */
  lemma NoSpecsAcceptAnything(d: Json)
    ensures CheckContent(d, [], []) == Pass
  {
  }

  /** On a dict, a list of well-formed specs fails only with InvalidArguments. */
  lemma {:induction false} CheckAllArgsOnly(d: Json, specs: seq<FieldSpec>, optional: bool)
    requires d.JObject?
    requires forall i :: 0 <= i < |specs| ==> WellFormed(specs[i])
    ensures CheckAll(d, specs, optional).Fail? ==> CheckAll(d, specs, optional).error.InvalidArguments?
  {
    var r := CheckAll(d, specs, optional);
    if r.Fail? {
      var i :| FirstFailureAt(d, specs, optional, i, r);
      assert WellFormed(specs[i]);
    }
  }
}
