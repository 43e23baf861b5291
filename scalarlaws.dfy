/**
 * What the `Int`, `Bool`, `Color` and `Str` fields promise, in both
 * revisions: construction, `check_value`, `set` then `get`, `load` of the
 * raw value, and `to_save`.
 */
module ScalarLaws {
  import opened Wrappers
  import opened Errors
  import opened PyValues
  import opened FieldTypes
  import opened FieldOps

  /** The four kinds whose state is one plain value. */
  predicate IsScalarKind(spec: FieldSpec) {
    spec.IntSpec? || spec.BoolSpec? || spec.ColorSpec? || spec.StrSpec?
  }

  /** `min <= n <= max`, for the bounds that are given. */
  predicate InBounds(spec: FieldSpec, n: int)
    requires spec.IntSpec?
  {
    (spec.min.None? || spec.min.value <= n) && (spec.max.None? || n <= spec.max.value)
  }

  /** The value each kind stores on `set`: the current revision coerces with
      `int()`, `bool()` or `str()`; the legacy one coerces only `Bool` and `Color`. */
  function Coerced(rev: Revision, spec: FieldSpec, v: Value): Value
    requires IsScalarKind(spec)
  {
    match spec
    case IntSpec(_, _, _) => if rev == Current && IntOf(v).Ok? then VInt(IntOf(v).value) else v
    case BoolSpec => VBool(Truthy(v))
    case ColorSpec => if IntOf(v).Ok? then VInt(IntOf(v).value) else v
    case StrSpec => if rev == Current then VStr(StrOf(v)) else v
  }

  /** A fresh field holds `None`, except a current `Str`, which holds `""`;
      `get()` and `to_save()` both return it. */
  lemma FreshScalar(rev: Revision, c: Client, spec: FieldSpec)
    requires IsScalarKind(spec) && Construct(rev, spec).Ok?
    ensures && GetF(rev, c, spec, Construct(rev, spec).value) == Got(Ok((if spec.StrSpec? && rev == Current then VStr("") else VNone)), Construct(rev, spec).value)
      && ToSaveF(rev, spec, Construct(rev, spec).value) == Ok((if spec.StrSpec? && rev == Current then VStr("") else VNone))
  {
  }

  /** `Int.check_value` on a number: inclusive bounds and membership in `values`;
      it never raises for a number. */
  lemma IntCheckNumber(rev: Revision, spec: FieldSpec, v: Value)
    requires spec.IntSpec? && IsNumber(v)
    ensures Check(rev, spec, v) == Ok(InBounds(spec, NumberOf(v))
                                     && (spec.values.None? || NumberOf(v) in spec.values.value))
  {
    if spec.values.Some? {
      var vs := spec.values.value;
      if NumberOf(v) in vs {
        var j :| 0 <= j < |vs| && vs[j] == NumberOf(v);
        assert EqInt(v, vs[j]);
      }
    }
  }

  /** A string that `int()` reads is still never in `values`, so an `Int`
      with allowed values rejects every string. */
  lemma IntCheckStringWithValues(rev: Revision, spec: FieldSpec, s: string)
    requires spec.IntSpec? && spec.values.Some?
    ensures Check(rev, spec, VStr(s)) == Ok(false)
  {
  }

  /** Without allowed values, a string passes exactly when `int()` reads it
      as a number within the bounds. */
  lemma IntCheckString(rev: Revision, spec: FieldSpec, s: string)
    requires spec.IntSpec? && spec.values.None?
    ensures Check(rev, spec, VStr(s)) == Ok(ParseInt(s).Some? && InBounds(spec, ParseInt(s).value))
  {
    assert Check(rev, spec, VStr(s)) == CheckInt(spec, VStr(s));
    match ParseInt(s)
    case Some(n) => CheckIntRead(spec, VStr(s), n);
    case None => assert IntOf(VStr(s)) == Err(ValueError);
  }

  /** Without allowed values, a value that `int()` reads as `n` passes
      exactly when `n` is within the bounds. */
  lemma CheckIntRead(spec: FieldSpec, v: Value, n: int)
    requires spec.IntSpec? && spec.values.None? && IntOf(v) == Ok(n)
    ensures CheckInt(spec, v) == Ok(InBounds(spec, n))
  {
  }

  /** `Int.check_value` raises (`TypeError`) exactly for values that are
      neither numbers nor strings. */
  lemma IntCheckRaises(rev: Revision, spec: FieldSpec, v: Value)
    requires spec.IntSpec?
    ensures Check(rev, spec, v).Err? <==> !IsNumber(v) && !v.VStr?
    ensures Check(rev, spec, v).Err? ==> Check(rev, spec, v).error == TypeError
  {
  }

  /** `Color.check_value` on a number: the 24-bit range `[0, 0xFFFFFF]`. */
  lemma ColorCheckNumber(rev: Revision, v: Value)
    requires IsNumber(v)
    ensures Check(rev, ColorSpec, v) == Ok(0 <= NumberOf(v) <= 0xFF_FFFF)
  {
  }

  /** A string that `int()` reads makes `Color.check_value` raise `TypeError`
      at the comparison; one it cannot read is rejected. */
  lemma ColorCheckString(rev: Revision, s: string)
    ensures Check(rev, ColorSpec, VStr(s)) == if ParseInt(s).Some? then Err(TypeError) else Ok(false)
  {
  }

  /** `bool()` and `str()` accept every value, so `Bool` and `Str` accept everything. */
  lemma BoolStrAcceptAll(rev: Revision, spec: FieldSpec, v: Value)
    requires spec.BoolSpec? || spec.StrSpec?
    ensures Check(rev, spec, v) == Ok(true)
  {
  }

  /** `set` succeeds exactly when `check_value` holds (an exception of the
      check propagates, a `False` becomes `ValueError`); then `get` returns the
      coerced value. */
  lemma SetThenGet(rev: Revision, c: Client, spec: FieldSpec, st: FieldState, v: Value)
    requires IsScalarKind(spec) && Fits(rev, spec, st)
    ensures SetF(rev, c, spec, st, v).Ok? <==> Check(rev, spec, v) == Ok(true)
    ensures Check(rev, spec, v).Err? ==> SetF(rev, c, spec, st, v) == Err(Check(rev, spec, v).error)
    ensures Check(rev, spec, v) == Ok(false) ==> SetF(rev, c, spec, st, v) == Err(ValueError)
    ensures SetF(rev, c, spec, st, v).Ok? ==>
              var s := SetF(rev, c, spec, st, v).value;
              GetF(rev, c, spec, s) == Got(Ok(Coerced(rev, spec, v)), s)
  {
    if Check(rev, spec, v) == Ok(true) && (spec.IntSpec? || spec.ColorSpec?) {
      assert IntOf(v).Ok?;
    }
  }

  /** `load` applies the same check as `set` and raises the same way, but
      stores the raw value. */
  lemma LoadRaw(rev: Revision, c: Client, spec: FieldSpec, st: FieldState, v: Value)
    requires IsScalarKind(spec) && Fits(rev, spec, st)
    ensures LoadF(rev, c, spec, st, v).outcome.Pass? <==> SetF(rev, c, spec, st, v).Ok?
    ensures LoadF(rev, c, spec, st, v).outcome.Pass? ==> LoadF(rev, c, spec, st, v).state == Scalar(v)
    ensures LoadF(rev, c, spec, st, v).outcome.Fail? ==>
              && LoadF(rev, c, spec, st, v).state == st
              && SetF(rev, c, spec, st, v) == Err(LoadF(rev, c, spec, st, v).outcome.error)
  {
    SetThenGet(rev, c, spec, st, v);
  }

  /** `to_save` returns the stored value, so loading what `to_save` gave
      after a successful `set` restores the state, and `get` with it. */
  lemma SetSaveLoad(rev: Revision, c: Client, spec: FieldSpec, st: FieldState, blank: FieldState, v: Value)
    requires IsScalarKind(spec) && Fits(rev, spec, st) && Fits(rev, spec, blank)
    requires SetF(rev, c, spec, st, v).Ok?
    ensures && ToSaveF(rev, spec, SetF(rev, c, spec, st, v).value) == Ok(Coerced(rev, spec, v))
      && LoadF(rev, c, spec, blank, Coerced(rev, spec, v)) == Loaded(Pass, SetF(rev, c, spec, st, v).value)
  {
    var s := SetF(rev, c, spec, st, v).value;
    SetThenGet(rev, c, spec, st, v);
    assert s == Scalar(Coerced(rev, spec, v));
    CoercedPasses(rev, spec, v);
  }

  /** The coerced value passes the check the original value passed. */
  lemma CoercedPasses(rev: Revision, spec: FieldSpec, v: Value)
    requires IsScalarKind(spec) && Check(rev, spec, v) == Ok(true)
    ensures Check(rev, spec, Coerced(rev, spec, v)) == Ok(true)
  {
    match spec
    case IntSpec(_, _, vs) =>
      if rev == Current {
        var n := IntOf(v).value;
        if vs.Some? {
          var j :| 0 <= j < |vs.value| && EqInt(v, vs.value[j]);
          assert EqInt(VInt(n), vs.value[j]);
        }
      }
    case ColorSpec =>
    case BoolSpec =>
    case StrSpec =>
  }

  /** The examples of the `Int` documentation. */
  lemma IntExamples()
    ensures Check(Current, IntSpec(Some(0), None, None), VInt(0)) == Ok(true) && Check(Current, IntSpec(Some(0), None, None), VInt(-2)) == Ok(false)
    ensures Check(Current, IntSpec(Some(10), Some(20), None), VInt(10)) == Ok(true) && Check(Current, IntSpec(Some(10), Some(20), None), VInt(20)) == Ok(true)
      && Check(Current, IntSpec(Some(10), Some(20), None), VInt(-2)) == Ok(false)
    ensures Check(Current, IntSpec(None, None, Some([2, 3, 5, 7])), VInt(2)) == Ok(true) && Check(Current, IntSpec(None, None, Some([2, 3, 5, 7])), VInt(4)) == Ok(false)
    ensures Construct(Current, IntSpec(Some(0), None, Some([3, 4, 5]))) == Err(ValueError)
  {
    IntCheckNumber(Current, IntSpec(None, None, Some([2, 3, 5, 7])), VInt(2));
    IntCheckNumber(Current, IntSpec(None, None, Some([2, 3, 5, 7])), VInt(4));
  }

  /** The examples of the `Bool`, `Color` and `Str` documentation. */
  lemma OtherExamples(c: Client)
    ensures SetF(Current, c, BoolSpec, Scalar(VNone), VInt(34)) == Ok(Scalar(VBool(true)))
    ensures SetF(Current, c, ColorSpec, Scalar(VNone), VInt(0x100_0000)).Err?
    ensures SetF(Current, c, ColorSpec, Scalar(VNone), VInt(-2)).Err?
    ensures LoadF(Current, c, ColorSpec, Scalar(VNone), VBool(true)) == Loaded(Pass, Scalar(VBool(true)))
    ensures SetF(Current, c, StrSpec, Scalar(VStr("")), VInt(34)) == Ok(Scalar(VStr("34")))
  {
    assert Decimal(34) == "34" by {
      assert NatDecimal(34) == NatDecimal(3) + [DigitChar(4)];
    }
  }
}
