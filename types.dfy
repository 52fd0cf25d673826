/** Field validators: `TypeAny` and its subclass `TypeArray`. A validator
    applies its default, checks presence, runs the class's base check, then
    every cast in order and every test on the cast value. */
module Types {
  import opened Wrappers
  import opened Strings
  import opened Json

  /** The class of a validator. Subclasses whose source is not part of this
      model are given by their class name and base check. */
  datatype Kind =
    | AnyKind
    | ArrayKind
    | OtherKind(className: string, base: Value -> Option<string>)

  /** `_default`: none (the producer giving `undefined`), a constant, or a
      producer function; producers read the clock. */
  datatype Default = NoDefault | Constant(v: Value) | Producer(f: int -> Value)

  datatype Validator = Validator(kind: Kind, required: bool, default: Default, casts: seq<Cast>, tests: seq<Test>)

  /** A cast: a function of the value, or `of(type)`'s element cast. */
  datatype Cast = CustomCast(f: Value -> Value) | ElementsOf(elem: Validator)

  /** A test: a function giving an error or none, the array bounds, or
      `of(type)`'s element test. */
  datatype Test =
    | CustomTest(t: Value -> Option<string>)
    | MinItems(n: int)
    | MaxItems(n: int)
    | ExactItems(n: int)
    | ElementsValid(elem: Validator)

  /** `{ value, errors }`; `errors` is `null` (`None`) or a non-empty list. */
  datatype Outcome = Outcome(value: Value, errors: Option<seq<string>>)

  const MustBeProvided := "Must be provided"

  function ClassName(k: Kind): string
  {
    match k
    case AnyKind => "TypeAny"
    case ArrayKind => "TypeArray"
    case OtherKind(name, _) => name
  }

  /** `_base(v)`: `TypeAny` refuses functions, `TypeArray` anything but an
      array. */
  function Base(k: Kind, v: Value): Option<string>
  {
    match k
    case AnyKind => if v.Fun? then Some("Invalid type") else None
    case ArrayKind => if v.Arr? then None else Some("Must be an array")
    case OtherKind(_, base) => base(v)
  }

  /** A string error counts only when truthy: `if (baseError)`, `compact`. */
  predicate Raised(e: Option<string>)
  {
    e.Some? && e.value != ""
  }

  function DefaultValue(d: Default, now: int): Value
  {
    match d
    case NoDefault => Undefined
    case Constant(v) => v
    case Producer(f) => f(now)
  }

  /** `v.length` for the values that have one. */
  function Length(v: Value): Option<int>
  {
    if v.Arr? then Some(|v.items|) else if v.Str? then Some(|v.s|) else None
  }

  /** `lodash.compact` on the test results: only truthy errors stay, in order. */
  function Compact(rs: seq<Option<string>>): seq<string>
  {
    if rs == [] then []
    else Compact(rs[..|rs| - 1]) + (if Raised(rs[|rs| - 1]) then [rs[|rs| - 1].value] else [])
  }

  // ------------------------------------------------------------- validate

  /** `validate(value = this._default())`. */
  function Validate(vd: Validator, value: Value, now: int): (r: Outcome)
    ensures r.errors.Some? ==> r.errors.value != []
    decreases vd, 3
  {
    var v := if value.Undefined? then DefaultValue(vd.default, now) else value;
    if IsAbsent(v) then Outcome(v, if vd.required then Some([MustBeProvided]) else None)
    else
      var base := Base(vd.kind, v);
      if Raised(base) then Outcome(v, Some([base.value]))
      else
        var cast := CastAll(vd, v, now, |vd.casts|);
        var errors := Compact(Results(vd, cast, now, |vd.tests|));
        Outcome(cast, if errors == [] then None else Some(errors))
  }

  /** The first `k` casts applied in order, each to the previous result. */
  function CastAll(vd: Validator, v: Value, now: int, k: nat): Value
    requires k <= |vd.casts|
    decreases vd, 2, k
  {
    if k == 0 then v else ApplyCast(vd, k - 1, CastAll(vd, v, now, k - 1), now)
  }

  function ApplyCast(vd: Validator, i: nat, v: Value, now: int): Value
    requires i < |vd.casts|
    decreases vd, 1
  {
    match vd.casts[i]
    case CustomCast(f) => f(v)
    case ElementsOf(elem) => if v.Arr? then Arr(ValidItems(elem, v.items, now)) else v
  }

  /** `v.map((item) => type.validate(item).value)`. */
  function ValidItems(elem: Validator, items: seq<Value>, now: int): (r: seq<Value>)
    ensures |r| == |items|
    decreases elem, 4, |items|
  {
    if items == [] then []
    else ValidItems(elem, items[..|items| - 1], now) + [Validate(elem, items[|items| - 1], now).value]
  }

  /** The results of the first `k` tests on the cast value, in order. */
  function Results(vd: Validator, v: Value, now: int, k: nat): (r: seq<Option<string>>)
    requires k <= |vd.tests|
    ensures |r| == k
    decreases vd, 2, k
  {
    if k == 0 then [] else Results(vd, v, now, k - 1) + [TestResult(vd, k - 1, v, now)]
  }

  function TestResult(vd: Validator, i: nat, v: Value, now: int): Option<string>
    requires i < |vd.tests|
    decreases vd, 1
  {
    match vd.tests[i]
    case CustomTest(t) => t(v)
    case MinItems(n) =>
      if Length(v).Some? && Length(v).value < n then Some("Must be at least " + Decimal(n) + " items") else None
    case MaxItems(n) =>
      if Length(v).Some? && Length(v).value > n then Some("Must be at most " + Decimal(n) + " items") else None
    case ExactItems(n) =>
      if Length(v) != Some(n) then Some("Must be exactly " + Decimal(n) + " items") else None
    case ElementsValid(elem) =>
      if v.Arr? then
        var errors := ItemErrors(elem, v.items, now);
        if errors == [] then None else Some(errors[0])
      else None
  }

  /** `deepFlatten(compact(v.map((item) => type.validate(item).errors)))`. */
  function ItemErrors(elem: Validator, items: seq<Value>, now: int): seq<string>
    decreases elem, 4, |items|
  {
    if items == [] then []
    else
      var e := Validate(elem, items[0], now).errors;
      (if e.Some? then e.value else []) + ItemErrors(elem, items[1..], now)
  }

  // -------------------------------------------------------------- builder

  /** A validator object; the builder methods change it in place. */
  class TypeAny {
    var kind: Kind
    var casts: seq<Cast>
    var tests: seq<Test>
    var required: bool
    var default: Default
    /** `ofType`, set by `of` on an array validator. */
    var ofType: Option<Validator>

    /** `new TypeAny()`, `new TypeArray()`, or another subclass. */
    constructor(kind: Kind)
      ensures this.kind == kind && casts == [] && tests == [] && !required
      ensures default == NoDefault && ofType == None
    {
      this.kind := kind;
      casts := [];
      tests := [];
      required := false;
      default := NoDefault;
      ofType := None;
    }

    /** The validator as it stands. */
    function Snapshot(): Validator
      reads this
    {
      Validator(kind, required, default, casts, tests)
    }

    /** The `required` getter. */
    method Required()
      modifies this
      ensures required
      ensures kind == old(kind) && casts == old(casts) && tests == old(tests)
      ensures default == old(default) && ofType == old(ofType)
    {
      required := true;
    }

    /** `_cast(f)`. */
    method AddCast(f: Value -> Value)
      modifies this
      ensures casts == old(casts) + [CustomCast(f)]
      ensures kind == old(kind) && tests == old(tests) && required == old(required)
      ensures default == old(default) && ofType == old(ofType)
    {
      casts := casts + [CustomCast(f)];
    }

    /** `_test(t)`. */
    method AddTest(t: Value -> Option<string>)
      modifies this
      ensures tests == old(tests) + [CustomTest(t)]
      ensures kind == old(kind) && casts == old(casts) && required == old(required)
      ensures default == old(default) && ofType == old(ofType)
    {
      tests := tests + [CustomTest(t)];
    }

    /** `default(f)` with a function: it becomes the producer. */
    method DefaultBy(f: int -> Value)
      modifies this
      ensures default == Producer(f)
      ensures kind == old(kind) && casts == old(casts) && tests == old(tests)
      ensures required == old(required) && ofType == old(ofType)
    {
      default := Producer(f);
    }

    /** `default(v)` with a value: refused when the base check fails on it,
        stored as a constant otherwise. */
    method DefaultTo(v: Value) returns (r: Result<(), string>)
      requires !v.Fun?
      modifies this
      ensures Raised(Base(kind, v)) ==>
        r == Failure("The given value must be of \"" + ClassName(kind) + "\" type") && default == old(default)
      ensures !Raised(Base(kind, v)) ==> r.Success? && default == Constant(v)
      ensures kind == old(kind) && casts == old(casts) && tests == old(tests)
      ensures required == old(required) && ofType == old(ofType)
    {
      if Raised(Base(kind, v)) {
        return Failure("The given value must be of \"" + ClassName(kind) + "\" type");
      }
      default := Constant(v);
      return Success(());
    }

    /** `of(type)` on an array validator: the element test, then the
        element cast. */
    method Of(elem: Validator)
      requires kind == ArrayKind
      modifies this
      ensures ofType == Some(elem)
      ensures tests == old(tests) + [ElementsValid(elem)] && casts == old(casts) + [ElementsOf(elem)]
      ensures kind == old(kind) && required == old(required) && default == old(default)
    {
      ofType := Some(elem);
      tests := tests + [ElementsValid(elem)];
      casts := casts + [ElementsOf(elem)];
    }

    /** The argument check of `min`/`max`/`length`. */
    static function BoundError(n: Value): (e: Option<string>)
      ensures e.None? <==> n.Num? && n.n >= 0
      ensures !n.Num? ==> e == Some("'n' must be a number")
      ensures n.Num? && n.n < 0 ==> e == Some("'n' must be a positive number")
    {
      if !n.Num? then Some("'n' must be a number")
      else if n.n < 0 then Some("'n' must be a positive number")
      else None
    }

    /** `min(n)`, `max(n)` or `length(n)`, by the test they add. */
    method Bound(n: Value, test: int -> Test) returns (r: Result<(), string>)
      requires kind == ArrayKind
      modifies this
      ensures BoundError(n).Some? ==> r == Failure(BoundError(n).value) && tests == old(tests)
      ensures BoundError(n).None? ==> r.Success? && tests == old(tests) + [test(n.n)]
      ensures kind == old(kind) && casts == old(casts) && required == old(required)
      ensures default == old(default) && ofType == old(ofType)
    {
      var e := BoundError(n);
      if e.Some? {
        return Failure(e.value);
      }
      tests := tests + [test(n.n)];
      return Success(());
    }

    method Min(n: Value) returns (r: Result<(), string>)
      requires kind == ArrayKind
      modifies this
      ensures BoundError(n).Some? ==> r == Failure(BoundError(n).value) && tests == old(tests)
      ensures BoundError(n).None? ==> r.Success? && tests == old(tests) + [MinItems(n.n)]
      ensures kind == old(kind) && casts == old(casts) && required == old(required)
      ensures default == old(default) && ofType == old(ofType)
    {
      r := Bound(n, (k: int) => MinItems(k));
    }

    method Max(n: Value) returns (r: Result<(), string>)
      requires kind == ArrayKind
      modifies this
      ensures BoundError(n).Some? ==> r == Failure(BoundError(n).value) && tests == old(tests)
      ensures BoundError(n).None? ==> r.Success? && tests == old(tests) + [MaxItems(n.n)]
      ensures kind == old(kind) && casts == old(casts) && required == old(required)
      ensures default == old(default) && ofType == old(ofType)
    {
      r := Bound(n, (k: int) => MaxItems(k));
    }

    method Length(n: Value) returns (r: Result<(), string>)
      requires kind == ArrayKind
      modifies this
      ensures BoundError(n).Some? ==> r == Failure(BoundError(n).value) && tests == old(tests)
      ensures BoundError(n).None? ==> r.Success? && tests == old(tests) + [ExactItems(n.n)]
      ensures kind == old(kind) && casts == old(casts) && required == old(required)
      ensures default == old(default) && ofType == old(ofType)
    {
      r := Bound(n, (k: int) => ExactItems(k));
    }

    /** `validate(value)`: the default, the presence check, the base check,
        the cast loop and the test loop. */
    method ValidateValue(value: Value, now: int) returns (r: Outcome)
      ensures r == Validate(Snapshot(), value, now)
    {
      var vd := Snapshot();
      var v := value;
      if v.Undefined? {
        v := DefaultValue(default, now);
      }
      if IsAbsent(v) {
        return Outcome(v, if required then Some([MustBeProvided]) else None);
      }
      var base := Base(kind, v);
      if Raised(base) {
        return Outcome(v, Some([base.value]));
      }
      var start := v;
      var i := 0;
      while i < |casts|
        invariant 0 <= i <= |casts|
        invariant v == CastAll(vd, start, now, i)
      {
        v := ApplyCast(vd, i, v, now);
        i := i + 1;
      }
      var results: seq<Option<string>> := [];
      var j := 0;
      while j < |tests|
        invariant 0 <= j <= |tests|
        invariant results == Results(vd, v, now, j)
      {
        results := results + [TestResult(vd, j, v, now)];
        j := j + 1;
      }
      var errors := CompactResults(results);
      r := Outcome(v, if errors == [] then None else Some(errors));
    }
  }

  /** `compact` as a loop over the results. */
  method CompactResults(rs: seq<Option<string>>) returns (errors: seq<string>)
    ensures errors == Compact(rs)
  {
    errors := [];
    var i := 0;
    while i < |rs|
      invariant 0 <= i <= |rs|
      invariant errors == Compact(rs[..i])
    {
      if Raised(rs[i]) {
        errors := errors + [rs[i].value];
      }
      assert rs[..i + 1][..i] == rs[..i];
      i := i + 1;
    }
    assert rs[..|rs|] == rs;
  }

  // ------------------------------------------------------------- lemmas

  /** The errors of an outcome as a list, empty for `null`. */
  function ErrorList(o: Outcome): seq<string>
  {
    if o.errors.Some? then o.errors.value else []
  }

  /** The value a validation starts from: the default stands in for
      `undefined` only; `null` is kept. */
  lemma DefaultOnlyForUndefined(vd: Validator, now: int)
    ensures Validate(vd, Undefined, now) == Validate(vd, DefaultValue(vd.default, now), now)
    ensures Validate(vd, Null, now).value == Null
  {
  }

  /** A missing value is never cast or put to the tests: it is reported only when
      the field is required. */
  lemma AbsentIsOnlyRequired(vd: Validator, value: Value, now: int)
    requires IsAbsent(if value.Undefined? then DefaultValue(vd.default, now) else value)
    ensures Validate(vd, value, now).errors == (if vd.required then Some([MustBeProvided]) else None)
    ensures value.Null? ==> Validate(vd, value, now).value == Null
  {
  }

  /** A failing base check is the only error, and the value is returned
      without any cast. */
  lemma BaseErrorStops(vd: Validator, value: Value, now: int)
    requires !value.Undefined? && !IsAbsent(value) && Raised(Base(vd.kind, value))
    ensures Validate(vd, value, now) == Outcome(value, Some([Base(vd.kind, value).value]))
  {
  }

  /** A `TypeAny` refuses functions; a `TypeArray` anything present that
      is not an array. */
  lemma BaseChecks(vd: Validator, value: Value, now: int)
    requires !value.Undefined? && !IsAbsent(value)
    ensures vd.kind == AnyKind && value.Fun? ==> Validate(vd, value, now) == Outcome(value, Some(["Invalid type"]))
    ensures vd.kind == ArrayKind && !value.Arr? ==> Validate(vd, value, now) == Outcome(value, Some(["Must be an array"]))
  {
  }

  /** `compact` keeps, in order, exactly the results that are raised. */
  lemma {:induction false} CompactSpec(rs: seq<Option<string>>)
    ensures forall e :: e in Compact(rs) ==> e != ""
    ensures forall i :: 0 <= i < |rs| && Raised(rs[i]) ==> rs[i].value in Compact(rs)
    ensures forall e :: e in Compact(rs) ==> exists i :: 0 <= i < |rs| && Raised(rs[i]) && rs[i].value == e
    ensures Compact(rs) == [] <==> forall i :: 0 <= i < |rs| ==> !Raised(rs[i])
  {
    if rs != [] {
      var init := rs[..|rs| - 1];
      CompactSpec(init);
      assert forall i :: 0 <= i < |init| ==> init[i] == rs[i];
    }
  }

  lemma CompactOne(x: Option<string>)
    ensures Compact([x]) == if Raised(x) then [x.value] else []
  {
    assert [x][..0] == [];
  }

  /** A validator whose casts extend another's casts step for step. */
  lemma {:induction false} CastPrefix(vd: Validator, wider: Validator, v: Value, now: int, k: nat)
    requires k <= |vd.casts| <= |wider.casts| && vd.casts == wider.casts[..|vd.casts|]
    ensures CastAll(wider, v, now, k) == CastAll(vd, v, now, k)
  {
    if k > 0 {
      CastPrefix(vd, wider, v, now, k - 1);
      assert wider.casts[k - 1] == vd.casts[k - 1];
    }
  }

  lemma {:induction false} ResultsPrefix(vd: Validator, wider: Validator, v: Value, now: int, k: nat)
    requires k <= |vd.tests| <= |wider.tests| && vd.tests == wider.tests[..|vd.tests|]
    ensures Results(wider, v, now, k) == Results(vd, v, now, k)
  {
    if k > 0 {
      ResultsPrefix(vd, wider, v, now, k - 1);
      assert wider.tests[k - 1] == vd.tests[k - 1];
    }
  }

  lemma {:induction false} ResultsAt(vd: Validator, v: Value, now: int, k: nat)
    requires k <= |vd.tests|
    ensures forall i :: 0 <= i < k ==> Results(vd, v, now, k)[i] == TestResult(vd, i, v, now)
  {
    if k > 0 {
      ResultsAt(vd, v, now, k - 1);
    }
  }

  /** The value a present, well-typed input is cast to. */
  function CastValue(vd: Validator, value: Value, now: int): Value
  {
    CastAll(vd, if value.Undefined? then DefaultValue(vd.default, now) else value, now, |vd.casts|)
  }

  /** The errors of the tests on the cast value, after `compact`. */
  function TestErrors(vd: Validator, value: Value, now: int): seq<string>
  {
    Compact(Results(vd, CastValue(vd, value, now), now, |vd.tests|))
  }

  /** Past the presence and base checks, a validation is its casts and
      tests. */
  lemma Unfold(vd: Validator, value: Value, now: int)
    requires var v := if value.Undefined? then DefaultValue(vd.default, now) else value;
      !IsAbsent(v) && !Raised(Base(vd.kind, v))
    ensures Validate(vd, value, now) ==
      Outcome(CastValue(vd, value, now), if TestErrors(vd, value, now) == [] then None else Some(TestErrors(vd, value, now)))
  {
  }

  /** Test `i` on the value `v` raised the error `e`. */
  predicate RaisedBy(vd: Validator, v: Value, now: int, i: int, e: string)
  {
    0 <= i < |vd.tests| && Raised(TestResult(vd, i, v, now)) && TestResult(vd, i, v, now).value == e
  }

  /** A present, well-typed input: the errors are the raised test results
      on the cast value. */
  lemma ErrorsAreRaisedTests(vd: Validator, value: Value, now: int)
    requires var v := if value.Undefined? then DefaultValue(vd.default, now) else value;
      !IsAbsent(v) && !Raised(Base(vd.kind, v))
    ensures Validate(vd, value, now).value == CastValue(vd, value, now)
    ensures forall e :: e in ErrorList(Validate(vd, value, now)) <==>
      exists i :: RaisedBy(vd, CastValue(vd, value, now), now, i, e)
  {
    Unfold(vd, value, now);
    var cast := CastValue(vd, value, now);
    var rs := Results(vd, cast, now, |vd.tests|);
    CompactSpec(rs);
    ResultsAt(vd, cast, now, |vd.tests|);
    assert ErrorList(Validate(vd, value, now)) == Compact(rs);
    forall e | e in Compact(rs)
      ensures exists i :: RaisedBy(vd, cast, now, i, e)
    {
      var i :| 0 <= i < |rs| && Raised(rs[i]) && rs[i].value == e;
      assert RaisedBy(vd, cast, now, i, e);
    }
    forall e, i | RaisedBy(vd, cast, now, i, e)
      ensures e in Compact(rs)
    {
      assert rs[i] == TestResult(vd, i, cast, now);
    }
  }

  /** A present, well-typed input passes exactly when no test raises. */
  lemma PassesIffNoTestRaises(vd: Validator, value: Value, now: int)
    requires var v := if value.Undefined? then DefaultValue(vd.default, now) else value;
      !IsAbsent(v) && !Raised(Base(vd.kind, v))
    ensures Validate(vd, value, now).errors.None? ==>
      forall i :: 0 <= i < |vd.tests| ==> !Raised(TestResult(vd, i, CastValue(vd, value, now), now))
    ensures (forall i :: 0 <= i < |vd.tests| ==> !Raised(TestResult(vd, i, CastValue(vd, value, now), now))) ==>
      Validate(vd, value, now).errors.None?
  {
    Unfold(vd, value, now);
    var cast := CastValue(vd, value, now);
    var rs := Results(vd, cast, now, |vd.tests|);
    CompactSpec(rs);
    ResultsAt(vd, cast, now, |vd.tests|);
    assert TestErrors(vd, value, now) == Compact(rs);
    if Compact(rs) == [] {
      forall i | 0 <= i < |vd.tests|
        ensures !Raised(TestResult(vd, i, cast, now))
      {
        assert rs[i] == TestResult(vd, i, cast, now);
      }
    } else {
      var i :| 0 <= i < |rs| && Raised(rs[i]);
      assert rs[i] == TestResult(vd, i, cast, now);
    }
  }

  /** `_cast(f)` runs `f` after every cast added before it. */
  lemma AddedCastRunsLast(vd: Validator, f: Value -> Value, value: Value, now: int)
    requires var v := if value.Undefined? then DefaultValue(vd.default, now) else value;
      !IsAbsent(v) && !Raised(Base(vd.kind, v))
    ensures Validate(vd.(casts := vd.casts + [CustomCast(f)]), value, now).value == f(Validate(vd, value, now).value)
  {
    var wider := vd.(casts := vd.casts + [CustomCast(f)]);
    var v := if value.Undefined? then DefaultValue(vd.default, now) else value;
    Unfold(vd, value, now);
    Unfold(wider, value, now);
    CastPrefix(vd, wider, v, now, |vd.casts|);
    assert CastValue(wider, value, now) == ApplyCast(wider, |vd.casts|, CastAll(wider, v, now, |vd.casts|), now);
  }

  /** `_test(t)` leaves the value alone and adds its error, when raised,
      after the errors of the earlier tests. */
  lemma AddedTestReportsLast(vd: Validator, t: Value -> Option<string>, value: Value, now: int)
    requires var v := if value.Undefined? then DefaultValue(vd.default, now) else value;
      !IsAbsent(v) && !Raised(Base(vd.kind, v))
    ensures var after := Validate(vd.(tests := vd.tests + [CustomTest(t)]), value, now);
      var before := Validate(vd, value, now);
      after.value == before.value &&
      ErrorList(after) == ErrorList(before) + (if Raised(t(before.value)) then [t(before.value).value] else [])
  {
    var wider := vd.(tests := vd.tests + [CustomTest(t)]);
    var cast := CastValue(vd, value, now);
    Unfold(vd, value, now);
    Unfold(wider, value, now);
    CastPrefix(vd, wider, if value.Undefined? then DefaultValue(vd.default, now) else value, now, |vd.casts|);
    assert CastValue(wider, value, now) == cast;
    ResultsPrefix(vd, wider, cast, now, |vd.tests|);
    assert Results(wider, cast, now, |vd.tests| + 1) == Results(vd, cast, now, |vd.tests|) + [t(cast)];
  }

  /** `new TypeArray().min(n)`, `.max(n)` and `.length(n)` on an array:
      an error exactly when the bound is broken, with the bound in it. */
  lemma ArrayBounds(items: seq<Value>, n: int, now: int)
    ensures Validate(Validator(ArrayKind, false, NoDefault, [], [MinItems(n)]), Arr(items), now).errors ==
      (if |items| < n then Some(["Must be at least " + Decimal(n) + " items"]) else None)
    ensures Validate(Validator(ArrayKind, false, NoDefault, [], [MaxItems(n)]), Arr(items), now).errors ==
      (if |items| > n then Some(["Must be at most " + Decimal(n) + " items"]) else None)
    ensures Validate(Validator(ArrayKind, false, NoDefault, [], [ExactItems(n)]), Arr(items), now).errors ==
      (if |items| != n then Some(["Must be exactly " + Decimal(n) + " items"]) else None)
  {
    NonEmptyMessages(n);
    var v := Arr(items);
    var lo := Validator(ArrayKind, false, NoDefault, [], [MinItems(n)]);
    var hi := Validator(ArrayKind, false, NoDefault, [], [MaxItems(n)]);
    var ex := Validator(ArrayKind, false, NoDefault, [], [ExactItems(n)]);
    Unfold(lo, v, now);
    Unfold(hi, v, now);
    Unfold(ex, v, now);
    assert CastValue(lo, v, now) == v && CastValue(hi, v, now) == v && CastValue(ex, v, now) == v;
    assert Results(lo, v, now, 1) == [TestResult(lo, 0, v, now)];
    assert Results(hi, v, now, 1) == [TestResult(hi, 0, v, now)];
    assert Results(ex, v, now, 1) == [TestResult(ex, 0, v, now)];
    CompactOne(TestResult(lo, 0, v, now));
    CompactOne(TestResult(hi, 0, v, now));
    CompactOne(TestResult(ex, 0, v, now));
  }

  lemma NonEmptyMessages(n: int)
    ensures "Must be at least " + Decimal(n) + " items" != ""
    ensures "Must be at most " + Decimal(n) + " items" != ""
    ensures "Must be exactly " + Decimal(n) + " items" != ""
  {
    assert ("Must be at least " + Decimal(n) + " items")[0] == 'M';
    assert ("Must be at most " + Decimal(n) + " items")[0] == 'M';
    assert ("Must be exactly " + Decimal(n) + " items")[0] == 'M';
  }

  /** The element cast validates every item on its own. */
  lemma {:induction false} ValidItemsAt(elem: Validator, items: seq<Value>, now: int)
    ensures forall i :: 0 <= i < |items| ==> ValidItems(elem, items, now)[i] == Validate(elem, items[i], now).value
  {
    if items != [] {
      var init := items[..|items| - 1];
      ValidItemsAt(elem, init, now);
      assert forall i :: 0 <= i < |init| ==> init[i] == items[i];
    }
  }

  /** The flattened element errors are empty exactly when every item
      validates. */
  lemma {:induction false} ItemErrorsEmpty(elem: Validator, xs: seq<Value>, now: int)
    ensures ItemErrors(elem, xs, now) == [] <==> forall i :: 0 <= i < |xs| ==> Validate(elem, xs[i], now).errors.None?
  {
    if xs != [] {
      ItemErrorsEmpty(elem, xs[1..], now);
      assert forall i :: 1 <= i < |xs| ==> xs[i] == xs[1..][i - 1];
    }
  }

  /** The first flattened error is the first error of the first item that
      fails. */
  lemma {:induction false} ItemErrorsFirst(elem: Validator, xs: seq<Value>, now: int, k: nat)
    requires k < |xs| && Validate(elem, xs[k], now).errors.Some?
    requires forall i :: 0 <= i < k ==> Validate(elem, xs[i], now).errors.None?
    ensures ItemErrors(elem, xs, now) != []
    ensures ItemErrors(elem, xs, now)[0] == Validate(elem, xs[k], now).errors.value[0]
  {
    if k > 0 {
      assert xs[1..][k - 1] == xs[k];
      assert forall i :: 0 <= i < k - 1 ==> xs[1..][i] == xs[i + 1];
      ItemErrorsFirst(elem, xs[1..], now, k - 1);
    }
  }

  /** `new TypeArray().of(type)` on an array: the value is the list of the
      items' own validated values, and since every cast runs before any
      test, the element test re-validates those cast items and reports
      only the first error of the first one that fails. */
  lemma OfValidatesItems(elem: Validator, items: seq<Value>, now: int)
    ensures var r := Validate(Validator(ArrayKind, false, NoDefault, [ElementsOf(elem)], [ElementsValid(elem)]), Arr(items), now);
      var cast := ValidItems(elem, items, now);
      r.value == Arr(cast) &&
      (forall i :: 0 <= i < |items| ==> cast[i] == Validate(elem, items[i], now).value) &&
      (r.errors.None? <==> forall i :: 0 <= i < |cast| ==> Validate(elem, cast[i], now).errors.None?) &&
      (r.errors.Some? ==> |r.errors.value| == 1)
  {
    var vd := Validator(ArrayKind, false, NoDefault, [ElementsOf(elem)], [ElementsValid(elem)]);
    var cast := ValidItems(elem, items, now);
    ValidItemsAt(elem, items, now);
    ItemErrorsEmpty(elem, cast, now);
    OfUnfold(elem, items, now);
  }

  /** The validator `new TypeArray().of(elem)` builds. */
  function OfValidator(elem: Validator): Validator
  {
    Validator(ArrayKind, false, NoDefault, [ElementsOf(elem)], [ElementsValid(elem)])
  }

  /** Its one cast maps the items through the element type. */
  lemma OfCast(elem: Validator, items: seq<Value>, now: int)
    ensures CastValue(OfValidator(elem), Arr(items), now) == Arr(ValidItems(elem, items, now))
  {
    var vd := OfValidator(elem);
    assert CastAll(vd, Arr(items), now, 1) == ApplyCast(vd, 0, Arr(items), now);
  }

  /** Its one test reports the first element error, if any. */
  lemma OfTest(elem: Validator, cast: seq<Value>, now: int)
    ensures var errors := ItemErrors(elem, cast, now);
      Compact(Results(OfValidator(elem), Arr(cast), now, 1)) == if errors == [] then [] else [errors[0]]
  {
    var vd := OfValidator(elem);
    assert Results(vd, Arr(cast), now, 1) == [TestResult(vd, 0, Arr(cast), now)];
    CompactOne(TestResult(vd, 0, Arr(cast), now));
    var errors := ItemErrors(elem, cast, now);
    if errors != [] {
      ItemErrorsNonEmpty(elem, cast, now);
      assert errors[0] in errors;
    }
  }

  /** One element cast, then one element test on its result. */
  lemma OfUnfold(elem: Validator, items: seq<Value>, now: int)
    ensures var errors := ItemErrors(elem, ValidItems(elem, items, now), now);
      Validate(OfValidator(elem), Arr(items), now) ==
      Outcome(Arr(ValidItems(elem, items, now)), if errors == [] then None else Some([errors[0]]))
  {
    Unfold(OfValidator(elem), Arr(items), now);
    OfCast(elem, items, now);
    OfTest(elem, ValidItems(elem, items, now), now);
  }

  /** Every flattened element error is a reported, hence non-empty, one. */
  lemma {:induction false} ItemErrorsNonEmpty(elem: Validator, xs: seq<Value>, now: int)
    ensures forall e :: e in ItemErrors(elem, xs, now) ==> e != ""
  {
    if xs != [] {
      ItemErrorsNonEmpty(elem, xs[1..], now);
      ValidateErrorsRaised(elem, xs[0], now);
      var head := ErrorList(Validate(elem, xs[0], now));
      assert ItemErrors(elem, xs, now) == head + ItemErrors(elem, xs[1..], now);
    }
  }

  /** Every error a validation reports is non-empty. */
  lemma ValidateErrorsRaised(vd: Validator, value: Value, now: int)
    ensures forall e :: e in ErrorList(Validate(vd, value, now)) ==> e != ""
  {
    var v := if value.Undefined? then DefaultValue(vd.default, now) else value;
    if !IsAbsent(v) && !Raised(Base(vd.kind, v)) {
      Unfold(vd, value, now);
      CompactSpec(Results(vd, CastValue(vd, value, now), now, |vd.tests|));
    }
  }

  /** The reported element error names the first cast item that fails. */
  lemma OfReportsFirstFailure(elem: Validator, items: seq<Value>, now: int, k: nat)
    requires k < |items|
    requires Validate(elem, ValidItems(elem, items, now)[k], now).errors.Some?
    requires forall i :: 0 <= i < k ==> Validate(elem, ValidItems(elem, items, now)[i], now).errors.None?
    ensures Validate(Validator(ArrayKind, false, NoDefault, [ElementsOf(elem)], [ElementsValid(elem)]), Arr(items), now).errors ==
      Some([Validate(elem, ValidItems(elem, items, now)[k], now).errors.value[0]])
  {
    var cast := ValidItems(elem, items, now);
    ItemErrorsFirst(elem, cast, now, k);
    OfUnfold(elem, items, now);
  }
}
