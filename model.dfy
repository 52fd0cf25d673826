/** The model class: its full schema, document validation with nested
    objects and update pruning, and the instance's `isNew` flag and dotted
    attribute reads. */
module Models {
  import opened Wrappers
  import opened Assoc
  import opened Strings
  import opened Json
  import opened Types

  /** A schema entry: a validator, or a plain object of further entries. */
  datatype Spec = Field(vd: Validator) | Nested(schema: Schema)

  datatype Schema = Schema(fields: Dict<Spec>)

  /** The static configuration of a model class. */
  datatype ModelClass = ModelClass(
    schema: Schema,
    timestamps: bool,
    softDelete: bool,
    createdAt: string,
    updatedAt: string,
    deletedAt: string)

  /** The inner `validator`'s answer: the kept values and the collected
      errors, `{}` when there are none. */
  datatype Validation = Validation(value: Dict<Value>, errors: Dict<seq<string>>)

  /** What `Model.validate` throws: the error map, or the `TypeError` the
      first property read raises on an absent document. */
  datatype Rejection = Invalid(errors: Dict<seq<string>>) | TypeError(message: string)

  /** The default class configuration: timestamps on, soft deletes off. */
  function Defaults(schema: Schema): ModelClass
  {
    ModelClass(schema, true, false, "created_at", "updated_at", "deleted_at")
  }

  // -------------------------------------------------------------- _schema

  /** `{ ...base, ...fields }`: every field assigned in order. */
  function Spread(base: Dict<Spec>, fields: Dict<Spec>): Dict<Spec>
  {
    if fields == [] then base
    else Put(Spread(base, fields[..|fields| - 1]), fields[|fields| - 1].0, fields[|fields| - 1].1)
  }

  function Stamp(t: int): Value
  {
    Date(t)
  }

  /** `Types.Date.default(() => new Date())`. */
  function CreatedAtType(dateType: Validator): Validator
  {
    dateType.(default := Producer(Stamp))
  }

  /** `_schema`, given the `Types.ObjectId` and `Types.Date` validators: its
      keys are `id`, the class's own keys and the timestamp and soft-delete
      keys the class turns on. */
  function FullSchema(m: ModelClass, idType: Validator, dateType: Validator): (r: Schema)
    ensures forall k :: HasKey(r.fields, k) <==> k == "id" || HasKey(m.schema.fields, k) || Reserved(m, k)
  {
    var spread := Spread([("id", Field(idType))], m.schema.fields);
    SpreadKeys([("id", Field(idType))], m.schema.fields);
    assert forall k :: HasKey([("id", Field(idType))], k) <==> k == "id" by {
      forall k ensures HasKey([("id", Field(idType))], k) <==> k == "id" {
        if k == "id" { assert [("id", Field(idType))][0].0 == k; }
      }
    }
    PutKeys(spread, m.createdAt, Field(CreatedAtType(dateType)));
    PutKeys(Put(spread, m.createdAt, Field(CreatedAtType(dateType))), m.updatedAt, Field(dateType));
    var stamped := if m.timestamps then
        Put(Put(spread, m.createdAt, Field(CreatedAtType(dateType))), m.updatedAt, Field(dateType))
      else spread;
    PutKeys(stamped, m.deletedAt, Field(dateType));
    Schema(if m.softDelete then Put(stamped, m.deletedAt, Field(dateType)) else stamped)
  }

  /** The keys of a spread object are the base's and the spread fields'. */
  lemma {:induction false} SpreadKeys(base: Dict<Spec>, fields: Dict<Spec>)
    ensures forall k :: HasKey(Spread(base, fields), k) <==> HasKey(base, k) || HasKey(fields, k)
    decreases |fields|
  {
    if fields != [] {
      var init := fields[..|fields| - 1];
      var last := fields[|fields| - 1];
      SpreadKeys(base, init);
      PutKeys(Spread(base, init), last.0, last.1);
      HasKeyConcat(init, [last]);
      assert fields == init + [last];
      forall k ensures HasKey([last], k) <==> k == last.0 {
        if k == last.0 { assert [last][0].0 == k; }
      }
    }
  }

  // ------------------------------------------------------------ validator

  /** What a nested schema validates: the property when truthy, `{}`
      otherwise. */
  function NestedDocument(doc: Value, key: string): Value
  {
    if Truthy(Member(doc, key)) then Member(doc, key) else Obj([])
  }

  /** The inner `validator(schema, doc)`. */
  function Check(s: Schema, doc: Value, now: int): Validation
    decreases s, 1
  {
    CheckFirst(s, doc, now, |s.fields|)
  }

  /** The `for…in` loop after its first `k` schema keys. */
  function CheckFirst(s: Schema, doc: Value, now: int, k: nat): Validation
    requires k <= |s.fields|
    decreases s, 0, k
  {
    if k == 0 then Validation([], [])
    else
      var acc := CheckFirst(s, doc, now, k - 1);
      var key := s.fields[k - 1].0;
      match s.fields[k - 1].1
      case Field(vd) => AddField(acc, key, Validate(vd, Member(doc, key), now))
      case Nested(sub) => AddNested(acc, key, Check(sub, NestedDocument(doc, key), now))
  }

  /** A validated leaf: its value when truthy, its errors when any. */
  function AddField(acc: Validation, key: string, o: Outcome): Validation
  {
    Validation(
      if Truthy(o.value) then Put(acc.value, key, o.value) else acc.value,
      if o.errors.Some? then Put(acc.errors, key, o.errors.value) else acc.errors)
  }

  /** A validated nested object: its errors under dotted keys, its value
      when it has any key. */
  function AddNested(acc: Validation, key: string, r: Validation): Validation
  {
    Validation(
      if |r.value| > 0 then Put(acc.value, key, Obj(r.value)) else acc.value,
      Prefixed(acc.errors, key, r.errors))
  }

  /** ``errors[`${key}.${errorKey}`] = …`` for every nested error, in order. */
  function Prefixed(errors: Dict<seq<string>>, key: string, sub: Dict<seq<string>>): Dict<seq<string>>
  {
    if sub == [] then errors
    else Put(Prefixed(errors, key, sub[..|sub| - 1]), key + "." + sub[|sub| - 1].0, sub[|sub| - 1].1)
  }

  /** The inner `validator` as the loop it is. */
  method ValidateSchema(s: Schema, doc: Value, now: int) returns (r: Validation)
    ensures r == Check(s, doc, now)
    decreases s
  {
    var value: Dict<Value> := [];
    var errors: Dict<seq<string>> := [];
    var i := 0;
    while i < |s.fields|
      invariant 0 <= i <= |s.fields|
      invariant Validation(value, errors) == CheckFirst(s, doc, now, i)
    {
      var key := s.fields[i].0;
      match s.fields[i].1 {
        case Field(vd) =>
          var o := Validate(vd, Member(doc, key), now);
          if Truthy(o.value) {
            value := Put(value, key, o.value);
          }
          if o.errors.Some? {
            errors := Put(errors, key, o.errors.value);
          }
        case Nested(sub) =>
          var item := Member(doc, key);
          if !Truthy(item) {
            item := Obj([]);
          }
          var nested := ValidateSchema(sub, item, now);
          errors := PrefixErrors(errors, key, nested.errors);
          if |nested.value| > 0 {
            value := Put(value, key, Obj(nested.value));
          }
      }
      i := i + 1;
    }
    r := Validation(value, errors);
  }

  /** The loop copying nested errors under dotted keys. */
  method PrefixErrors(errors: Dict<seq<string>>, key: string, sub: Dict<seq<string>>) returns (r: Dict<seq<string>>)
    ensures r == Prefixed(errors, key, sub)
  {
    r := errors;
    var i := 0;
    while i < |sub|
      invariant 0 <= i <= |sub|
      invariant r == Prefixed(errors, key, sub[..i])
    {
      assert sub[..i + 1][..i] == sub[..i];
      r := Put(r, key + "." + sub[i].0, sub[i].1);
      i := i + 1;
    }
    assert sub[..|sub|] == sub;
  }

  // ------------------------------------------------------------- validate

  /** An error list that only says the value is missing. */
  predicate OnlyMissing(errors: seq<string>)
  {
    errors == [MustBeProvided]
  }

  /** The update pruning: every key whose errors only say the value is
      missing is deleted. */
  function Pruned(errors: Dict<seq<string>>): (r: Dict<seq<string>>)
    ensures |r| <= |errors|
    ensures forall e :: e in r <==> e in errors && !OnlyMissing(e.1)
  {
    if errors == [] then []
    else
      var last := errors[|errors| - 1];
      Pruned(errors[..|errors| - 1]) + (if OnlyMissing(last.1) then [] else [last])
  }

  method Prune(errors: Dict<seq<string>>) returns (kept: Dict<seq<string>>)
    ensures kept == Pruned(errors)
  {
    kept := [];
    var i := 0;
    while i < |errors|
      invariant 0 <= i <= |errors|
      invariant kept == Pruned(errors[..i])
    {
      assert errors[..i + 1][..i] == errors[..i];
      if !OnlyMissing(errors[i].1) {
        kept := kept + [errors[i]];
      }
      i := i + 1;
    }
    assert errors[..|errors|] == errors;
  }

  /** `Model.validate(document, updating)`: reading the first schema key of
      a null or undefined document throws; otherwise the error map is thrown
      when non-empty, and the value returned, stamped with the update time
      when updating a model with timestamps. */
  function ValidateDocument(m: ModelClass, idType: Validator, dateType: Validator, doc: Value, updating: bool, now: int): (r: Result<Dict<Value>, Rejection>)
    ensures IsAbsent(doc) ==> r == Failure(TypeError(ReadError("id", doc)))
    ensures !IsAbsent(doc) ==>
      var v := Check(FullSchema(m, idType, dateType), doc, now);
      var errors := if updating then Pruned(v.errors) else v.errors;
      (r.Failure? <==> errors != []) &&
      (r.Failure? ==> r.error == Invalid(errors)) &&
      (r.Success? && updating && m.timestamps ==> Get(r.value, m.updatedAt) == Some(Date(now))) &&
      (r.Success? && updating && m.timestamps ==>
        forall k :: k != m.updatedAt ==> Get(r.value, k) == Get(v.value, k)) &&
      (r.Success? && !(updating && m.timestamps) ==> r.value == v.value)
  {
    var s := FullSchema(m, idType, dateType);
    SchemaStartsWithId(m, idType, dateType);
    if IsAbsent(doc) then Failure(TypeError(ReadError(s.fields[0].0, doc)))
    else
      var v := Check(s, doc, now);
      var errors := if updating then Pruned(v.errors) else v.errors;
      if errors != [] then Failure(Invalid(errors))
      else
        PutGet(v.value, m.updatedAt, Date(now), m.updatedAt);
        PutOthers(v.value, m.updatedAt, Date(now));
        Success(if updating && m.timestamps then Put(v.value, m.updatedAt, Date(now)) else v.value)
  }

  /** `Model.validate` as the sequence of steps it is. */
  method ValidateModel(m: ModelClass, idType: Validator, dateType: Validator, doc: Value, updating: bool, now: int)
    returns (r: Result<Dict<Value>, Rejection>)
    ensures r == ValidateDocument(m, idType, dateType, doc, updating, now)
  {
    var s := FullSchema(m, idType, dateType);
    if IsAbsent(doc) && s.fields != [] {
      // the loop's first `doc[key]`
      return Failure(TypeError(ReadError(s.fields[0].0, doc)));
    }
    SchemaStartsWithId(m, idType, dateType);
    var v := ValidateSchema(s, doc, now);
    var errors := v.errors;
    if errors != [] && updating {
      errors := Prune(errors);
    }
    if errors != [] {
      return Failure(Invalid(errors));
    }
    var value := v.value;
    if updating && m.timestamps {
      value := Put(value, m.updatedAt, Date(now));
    }
    return Success(value);
  }

  // ------------------------------------------------------------- instance

  /** The error reading a property of `undefined` or `null` raises. */
  function ReadError(key: string, v: Value): string
  {
    "Cannot read property '" + key + "' of " + (if v.Null? then "null" else "undefined")
  }

  /** `path.reduce((prev, curr) => prev[curr], v)`: a read that fails names
      one of the path's segments. */
  function Walk(v: Value, path: seq<string>): (r: Result<Value, string>)
    ensures r.Failure? ==> exists i, w :: 0 <= i < |path| && IsAbsent(w) && r.error == ReadError(path[i], w)
    decreases |path|
  {
    if path == [] then Success(v)
    else if IsAbsent(v) then Failure(ReadError(path[0], v))
    else
      var r := Walk(Member(v, path[0]), path[1..]);
      assert r.Failure? ==> exists i, w :: 0 <= i < |path| && IsAbsent(w) && r.error == ReadError(path[i], w) by {
        if r.Failure? {
          var i, w :| 0 <= i < |path[1..]| && IsAbsent(w) && r.error == ReadError(path[1..][i], w);
          assert path[i + 1] == path[1..][i];
        }
      }
      r
  }

  /** A model instance. Getters and setters are the identity, so the
      document's properties are stored as given. */
  class Model {
    var attributes: Dict<Value>
    var isNew: bool

    constructor(document: Dict<Value>)
      ensures attributes == document
      ensures isNew <==> !Truthy(Member(Obj(document), "id"))
    {
      attributes := document;
      isNew := !Truthy(Member(Obj(document), "id"));
    }

    /** `getAttribute(attribute)`: the dotted path walked through the
        attributes. */
    function GetAttribute(attribute: string): (r: Result<Value, string>)
      reads this
      ensures '.' !in attribute ==> r == Success(Member(Obj(attributes), attribute))
    {
      assert '.' !in attribute ==>
        Split(attribute, '.') == [attribute] && [attribute][1..] == [] &&
        Walk(Obj(attributes), [attribute]) == Walk(Member(Obj(attributes), attribute), []);
      Walk(Obj(attributes), Split(attribute, '.'))
    }
  }

  // ------------------------------------------------------ schema lemmas

  /** A key the timestamps or soft deletes assign after the class's own
      schema. */
  predicate Reserved(m: ModelClass, k: string)
  {
    (m.timestamps && (k == m.createdAt || k == m.updatedAt)) || (m.softDelete && k == m.deletedAt)
  }

  lemma PutFirstKey<V>(d: Dict<V>, k: string, v: V)
    requires d != []
    ensures Put(d, k, v) != [] && Put(d, k, v)[0].0 == d[0].0
  {
  }

  lemma {:induction false} SpreadFirst(base: Dict<Spec>, fields: Dict<Spec>)
    requires base != []
    ensures Spread(base, fields) != [] && Spread(base, fields)[0].0 == base[0].0
  {
    if fields != [] {
      SpreadFirst(base, fields[..|fields| - 1]);
      PutFirstKey(Spread(base, fields[..|fields| - 1]), fields[|fields| - 1].0, fields[|fields| - 1].1);
    }
  }

  /** Reading a dictionary after appending a new key. */
  lemma GetAppend<V>(d: Dict<V>, k: string, v: V, j: string)
    requires !HasKey(d, k)
    ensures Get(d + [(k, v)], j) == if j == k then Some(v) else Get(d, j)
  {
    assert Put(d, k, v) == d + [(k, v)];
    PutGet(d, k, v, j);
  }

  /** The last pair of a dictionary with distinct keys is the only one with
      its key. */
  lemma LastKeyIsNew<V>(d: Dict<V>)
    requires d != [] && DistinctKeys(d)
    ensures DistinctKeys(d[..|d| - 1]) && !HasKey(d[..|d| - 1], d[|d| - 1].0)
    ensures d == d[..|d| - 1] + [d[|d| - 1]]
  {
    var init := d[..|d| - 1];
    forall i | 0 <= i < |init|
      ensures init[i].0 != d[|d| - 1].0
    {
      assert init[i] == d[i];
    }
  }

  /** A spread object reads the spread fields first, the base otherwise. */
  lemma {:induction false} SpreadGet(base: Dict<Spec>, fields: Dict<Spec>, k: string)
    requires DistinctKeys(fields)
    ensures Get(Spread(base, fields), k) == if HasKey(fields, k) then Get(fields, k) else Get(base, k)
  {
    if fields != [] {
      var init := fields[..|fields| - 1];
      var last := fields[|fields| - 1];
      LastKeyIsNew(fields);
      SpreadGet(base, init, k);
      PutGet(Spread(base, init), last.0, last.1, k);
      GetAppend(init, last.0, last.1, k);
      HasKeyConcat(init, [last]);
      assert HasKey([last], k) <==> k == last.0;
    }
  }

  /** `_schema` starts with `id`, even when the class's schema overrides
      its validator. */
  lemma SchemaStartsWithId(m: ModelClass, idType: Validator, dateType: Validator)
    ensures FullSchema(m, idType, dateType).fields != []
    ensures FullSchema(m, idType, dateType).fields[0].0 == "id"
  {
    var spread := Spread([("id", Field(idType))], m.schema.fields);
    SpreadFirst([("id", Field(idType))], m.schema.fields);
    var stamped := if m.timestamps then
        Put(Put(spread, m.createdAt, Field(CreatedAtType(dateType))), m.updatedAt, Field(dateType))
      else spread;
    if m.timestamps {
      PutFirstKey(spread, m.createdAt, Field(CreatedAtType(dateType)));
      PutFirstKey(Put(spread, m.createdAt, Field(CreatedAtType(dateType))), m.updatedAt, Field(dateType));
    }
    if m.softDelete {
      PutFirstKey(stamped, m.deletedAt, Field(dateType));
    }
  }

  /** Every key of `_schema`: a reserved timestamp or soft-delete key gets
      the date validator (`created_at` with its clock default), a key of the
      class's schema keeps its own entry, and `id` otherwise gets the
      ObjectId validator. */
  lemma SchemaEntry(m: ModelClass, idType: Validator, dateType: Validator, k: string)
    requires DistinctKeys(m.schema.fields)
    ensures m.softDelete && k == m.deletedAt ==> Get(FullSchema(m, idType, dateType).fields, k) == Some(Field(dateType))
    ensures m.timestamps && k == m.updatedAt && !(m.softDelete && k == m.deletedAt) ==>
      Get(FullSchema(m, idType, dateType).fields, k) == Some(Field(dateType))
    ensures m.timestamps && k == m.createdAt && k != m.updatedAt && !(m.softDelete && k == m.deletedAt) ==>
      Get(FullSchema(m, idType, dateType).fields, k) == Some(Field(CreatedAtType(dateType)))
    ensures !Reserved(m, k) && HasKey(m.schema.fields, k) ==>
      Get(FullSchema(m, idType, dateType).fields, k) == Get(m.schema.fields, k)
    ensures !Reserved(m, k) && !HasKey(m.schema.fields, k) ==>
      Get(FullSchema(m, idType, dateType).fields, k) == if k == "id" then Some(Field(idType)) else None
    ensures DefaultValue(CreatedAtType(dateType).default, 0) == Date(0)
  {
    var base := [("id", Field(idType))];
    var spread := Spread(base, m.schema.fields);
    SpreadGet(base, m.schema.fields, k);
    GetAppend([], "id", Field(idType), k);
    assert [] + [("id", Field(idType))] == base;
    var created := Put(spread, m.createdAt, Field(CreatedAtType(dateType)));
    PutGet(spread, m.createdAt, Field(CreatedAtType(dateType)), k);
    PutGet(created, m.updatedAt, Field(dateType), k);
    var stamped := if m.timestamps then Put(created, m.updatedAt, Field(dateType)) else spread;
    PutGet(stamped, m.deletedAt, Field(dateType), k);
  }

  // --------------------------------------------------- validation lemmas

  /** The schema key a validation error belongs to: the part of the error
      key before its first dot. */
  function Owner(e: string): string
  {
    var k := IndexOf(e, '.');
    if k == -1 then e else e[..k]
  }

  lemma OwnerOfPath(key: string, x: string)
    requires '.' !in key
    ensures Owner(key + "." + x) == key
    ensures '.' in key + "." + x
  {
    var e := key + "." + x;
    assert e[|key|] == '.';
    assert e[..|key|] == key;
    IndexOfAt(e, '.', |key|);
  }

  /** The first occurrence of `c` is where `IndexOf` finds it. */
  lemma {:induction false} IndexOfAt(s: string, c: char, p: nat)
    requires p < |s| && s[p] == c && c !in s[..p]
    ensures IndexOf(s, c) == p
  {
    if p > 0 {
      assert s[0] == s[..p][0];
      assert s[1..][..p - 1] == s[1..p];
      assert s[1..p] == s[..p][1..];
      IndexOfAt(s[1..], c, p - 1);
    }
  }

  /** The keys of a schema's own level carry no dot. */
  predicate NoDots(s: Schema)
  {
    forall j :: 0 <= j < |s.fields| ==> '.' !in s.fields[j].0
  }

  lemma {:induction false} PrefixedDistinct(errors: Dict<seq<string>>, key: string, sub: Dict<seq<string>>)
    requires DistinctKeys(errors)
    ensures DistinctKeys(Prefixed(errors, key, sub))
  {
    if sub != [] {
      PrefixedDistinct(errors, key, sub[..|sub| - 1]);
      PutKeys(Prefixed(errors, key, sub[..|sub| - 1]), key + "." + sub[|sub| - 1].0, sub[|sub| - 1].1);
    }
  }

  lemma {:induction false} PrefixedOwners(errors: Dict<seq<string>>, key: string, sub: Dict<seq<string>>)
    requires '.' !in key
    ensures forall j :: HasKey(Prefixed(errors, key, sub), j) ==> HasKey(errors, j) || Owner(j) == key
  {
    if sub != [] {
      PrefixedOwners(errors, key, sub[..|sub| - 1]);
      PutKeys(Prefixed(errors, key, sub[..|sub| - 1]), key + "." + sub[|sub| - 1].0, sub[|sub| - 1].1);
      OwnerOfPath(key, sub[|sub| - 1].0);
    }
  }

  /** Copying nested errors leaves keys of other owners alone. */
  lemma {:induction false} PrefixedOther(errors: Dict<seq<string>>, key: string, sub: Dict<seq<string>>, j: string)
    requires '.' !in key && Owner(j) != key
    ensures Get(Prefixed(errors, key, sub), j) == Get(errors, j)
  {
    if sub != [] {
      PrefixedOther(errors, key, sub[..|sub| - 1], j);
      OwnerOfPath(key, sub[|sub| - 1].0);
      PutGet(Prefixed(errors, key, sub[..|sub| - 1]), key + "." + sub[|sub| - 1].0, sub[|sub| - 1].1, j);
    }
  }

  /** A dotted key reads the nested error under its rest. */
  lemma {:induction false} PrefixedOwn(errors: Dict<seq<string>>, key: string, sub: Dict<seq<string>>, x: string)
    requires DistinctKeys(sub)
    ensures Get(Prefixed(errors, key, sub), key + "." + x) ==
      if HasKey(sub, x) then Get(sub, x) else Get(errors, key + "." + x)
  {
    if sub != [] {
      var init := sub[..|sub| - 1];
      var last := sub[|sub| - 1];
      LastKeyIsNew(sub);
      PrefixedOwn(errors, key, init, x);
      PutGet(Prefixed(errors, key, init), key + "." + last.0, last.1, key + "." + x);
      if key + "." + last.0 == key + "." + x {
        assert (key + "." + last.0)[|key| + 1..] == last.0;
        assert (key + "." + x)[|key| + 1..] == x;
      }
      GetAppend(init, last.0, last.1, x);
      HasKeyConcat(init, [last]);
      assert HasKey([last], x) <==> x == last.0;
    }
  }

  /** The validator's maps never repeat a key. */
  lemma {:induction false} CheckDistinct(s: Schema, doc: Value, now: int, k: nat)
    requires k <= |s.fields|
    ensures DistinctKeys(CheckFirst(s, doc, now, k).value) && DistinctKeys(CheckFirst(s, doc, now, k).errors)
  {
    if k > 0 {
      CheckDistinct(s, doc, now, k - 1);
      var acc := CheckFirst(s, doc, now, k - 1);
      var key := s.fields[k - 1].0;
      match s.fields[k - 1].1
      case Field(vd) =>
        var o := Validate(vd, Member(doc, key), now);
        PutKeys(acc.value, key, o.value);
        if o.errors.Some? {
          PutKeys(acc.errors, key, o.errors.value);
        }
      case Nested(sub) =>
        var r := Check(sub, NestedDocument(doc, key), now);
        PutKeys(acc.value, key, Obj(r.value));
        PrefixedDistinct(acc.errors, key, r.errors);
    }
  }

  /** Every value key is a schema key seen so far, and every error key
      belongs to one. */
  lemma {:induction false} CheckOwners(s: Schema, doc: Value, now: int, k: nat)
    requires k <= |s.fields| && NoDots(s)
    ensures forall e :: HasKey(CheckFirst(s, doc, now, k).value, e) ==> exists j :: 0 <= j < k && s.fields[j].0 == e
    ensures forall e :: HasKey(CheckFirst(s, doc, now, k).errors, e) ==> exists j :: 0 <= j < k && s.fields[j].0 == Owner(e)
  {
    if k > 0 {
      CheckOwners(s, doc, now, k - 1);
      var acc := CheckFirst(s, doc, now, k - 1);
      var key := s.fields[k - 1].0;
      assert Owner(key) == key;
      match s.fields[k - 1].1
      case Field(vd) =>
        var o := Validate(vd, Member(doc, key), now);
        PutKeys(acc.value, key, o.value);
        if o.errors.Some? {
          PutKeys(acc.errors, key, o.errors.value);
        }
      case Nested(sub) =>
        var r := Check(sub, NestedDocument(doc, key), now);
        PutKeys(acc.value, key, Obj(r.value));
        PrefixedOwners(acc.errors, key, r.errors);
    }
  }

  lemma {:induction false} FieldAt(s: Schema, doc: Value, now: int, i: nat, k: nat)
    requires NoDots(s) && DistinctKeys(s.fields)
    requires i < k <= |s.fields| && s.fields[i].1.Field?
    ensures var key := s.fields[i].0;
      var o := Validate(s.fields[i].1.vd, Member(doc, key), now);
      Get(CheckFirst(s, doc, now, k).errors, key) == o.errors &&
      Get(CheckFirst(s, doc, now, k).value, key) == (if Truthy(o.value) then Some(o.value) else None)
  {
    var key := s.fields[i].0;
    var acc := CheckFirst(s, doc, now, k - 1);
    assert Owner(key) == key;
    if k == i + 1 {
      CheckOwners(s, doc, now, i);
      assert !HasKey(acc.value, key);
      assert !HasKey(acc.errors, key);
      var o := Validate(s.fields[i].1.vd, Member(doc, key), now);
      PutGet(acc.value, key, o.value, key);
      if o.errors.Some? {
        PutGet(acc.errors, key, o.errors.value, key);
      }
    } else {
      FieldAt(s, doc, now, i, k - 1);
      assert s.fields[k - 1].0 != key;
      StepOther(s, doc, now, k, key);
    }
  }

  /** A later schema key leaves the entries of other owners unchanged. */
  lemma StepOther(s: Schema, doc: Value, now: int, k: nat, j: string)
    requires 0 < k <= |s.fields| && '.' !in s.fields[k - 1].0
    requires j != s.fields[k - 1].0 && Owner(j) != s.fields[k - 1].0
    ensures Get(CheckFirst(s, doc, now, k).value, j) == Get(CheckFirst(s, doc, now, k - 1).value, j)
    ensures Get(CheckFirst(s, doc, now, k).errors, j) == Get(CheckFirst(s, doc, now, k - 1).errors, j)
  {
    var acc := CheckFirst(s, doc, now, k - 1);
    var key := s.fields[k - 1].0;
    match s.fields[k - 1].1
    case Field(vd) =>
      var o := Validate(vd, Member(doc, key), now);
      PutGet(acc.value, key, o.value, j);
      if o.errors.Some? {
        PutGet(acc.errors, key, o.errors.value, j);
      }
    case Nested(sub) =>
      var r := Check(sub, NestedDocument(doc, key), now);
      PutGet(acc.value, key, Obj(r.value), j);
      PrefixedOther(acc.errors, key, r.errors, j);
  }

  /** A later field leaves the nested key and the paths under it alone. */
  lemma NestedStep(s: Schema, doc: Value, now: int, i: nat, k: nat, x: string)
    requires NoDots(s) && DistinctKeys(s.fields)
    requires i + 1 < k <= |s.fields|
    ensures var key := s.fields[i].0;
      Get(CheckFirst(s, doc, now, k).errors, key + "." + x) == Get(CheckFirst(s, doc, now, k - 1).errors, key + "." + x) &&
      Get(CheckFirst(s, doc, now, k).value, key) == Get(CheckFirst(s, doc, now, k - 1).value, key)
  {
    var key := s.fields[i].0;
    OwnerOfPath(key, x);
    assert s.fields[k - 1].0 != key && Owner(key) == key;
    StepOther(s, doc, now, k, key);
    StepOther(s, doc, now, k, key + "." + x);
  }

  /** A leaf field's errors are stored under its own key, and its value
      only when truthy. */
  lemma FieldResult(s: Schema, doc: Value, now: int, i: nat)
    requires NoDots(s) && DistinctKeys(s.fields)
    requires i < |s.fields| && s.fields[i].1.Field?
    ensures var key := s.fields[i].0;
      var o := Validate(s.fields[i].1.vd, Member(doc, key), now);
      Get(Check(s, doc, now).errors, key) == o.errors &&
      Get(Check(s, doc, now).value, key) == (if Truthy(o.value) then Some(o.value) else None)
  {
    FieldAt(s, doc, now, i, |s.fields|);
  }

  lemma {:induction false} NestedAt(s: Schema, doc: Value, now: int, i: nat, k: nat, x: string)
    requires NoDots(s) && DistinctKeys(s.fields)
    requires i < k <= |s.fields| && s.fields[i].1.Nested?
    ensures var key := s.fields[i].0;
      var r := Check(s.fields[i].1.schema, NestedDocument(doc, key), now);
      Get(CheckFirst(s, doc, now, k).errors, key + "." + x) == Get(r.errors, x) &&
      Get(CheckFirst(s, doc, now, k).value, key) == (if |r.value| > 0 then Some(Obj(r.value)) else None)
  {
    var key := s.fields[i].0;
    if k == i + 1 {
      NestedFirst(s, doc, now, i, x);
    } else {
      NestedAt(s, doc, now, i, k - 1, x);
      NestedStep(s, doc, now, i, k, x);
    }
  }

  /** The nested entry right after its own schema key is handled. */
  lemma NestedFirst(s: Schema, doc: Value, now: int, i: nat, x: string)
    requires NoDots(s) && DistinctKeys(s.fields)
    requires i < |s.fields| && s.fields[i].1.Nested?
    ensures var key := s.fields[i].0;
      var r := Check(s.fields[i].1.schema, NestedDocument(doc, key), now);
      Get(CheckFirst(s, doc, now, i + 1).errors, key + "." + x) == Get(r.errors, x) &&
      Get(CheckFirst(s, doc, now, i + 1).value, key) == (if |r.value| > 0 then Some(Obj(r.value)) else None)
  {
    var key := s.fields[i].0;
    var acc := CheckFirst(s, doc, now, i);
    OwnerOfPath(key, x);
    CheckOwners(s, doc, now, i);
    var sub := s.fields[i].1.schema;
    var r := Check(sub, NestedDocument(doc, key), now);
    CheckDistinct(sub, NestedDocument(doc, key), now, |sub.fields|);
    assert !HasKey(acc.value, key);
    assert !HasKey(acc.errors, key + "." + x);
    PrefixedOwn(acc.errors, key, r.errors, x);
    PutGet(acc.value, key, Obj(r.value), key);
  }

  /** A nested object's errors appear under `parent.child` keys, and its
      value only when it kept some key. */
  lemma NestedResult(s: Schema, doc: Value, now: int, i: nat, x: string)
    requires NoDots(s) && DistinctKeys(s.fields)
    requires i < |s.fields| && s.fields[i].1.Nested?
    ensures var key := s.fields[i].0;
      var r := Check(s.fields[i].1.schema, NestedDocument(doc, key), now);
      Get(Check(s, doc, now).errors, key + "." + x) == Get(r.errors, x) &&
      Get(Check(s, doc, now).value, key) == (if |r.value| > 0 then Some(Obj(r.value)) else None)
  {
    NestedAt(s, doc, now, i, |s.fields|, x);
  }

  /** A missing nested object is validated as `{}`: a required child
      without a default is reported as not provided under its dotted key. */
  lemma MissingObjectReportsRequiredChild(s: Schema, doc: Value, now: int, i: nat, j: nat)
    requires NoDots(s) && DistinctKeys(s.fields)
    requires i < |s.fields| && s.fields[i].1.Nested? && !Truthy(Member(doc, s.fields[i].0))
    requires var sub := s.fields[i].1.schema;
      NoDots(sub) && DistinctKeys(sub.fields) && j < |sub.fields| && sub.fields[j].1.Field? &&
      sub.fields[j].1.vd.required && IsAbsent(DefaultValue(sub.fields[j].1.vd.default, now))
    ensures Get(Check(s, doc, now).errors, s.fields[i].0 + "." + s.fields[i].1.schema.fields[j].0) == Some([MustBeProvided])
  {
    var sub := s.fields[i].1.schema;
    var child := sub.fields[j].0;
    NestedResult(s, doc, now, i, child);
    assert NestedDocument(doc, s.fields[i].0) == Obj([]);
    FieldResult(sub, Obj([]), now, j);
    assert Member(Obj([]), child) == Undefined;
  }

  /** Pruning keeps, in order, exactly the keys whose errors say more than
      that the value is missing. */
  lemma {:induction false} PrunedGet(errors: Dict<seq<string>>, k: string)
    requires DistinctKeys(errors)
    ensures Get(Pruned(errors), k) ==
      if Get(errors, k).Some? && OnlyMissing(Get(errors, k).value) then None else Get(errors, k)
    ensures DistinctKeys(Pruned(errors))
    ensures forall e :: HasKey(Pruned(errors), e) ==> HasKey(errors, e)
  {
    if errors != [] {
      var init := errors[..|errors| - 1];
      var last := errors[|errors| - 1];
      LastKeyIsNew(errors);
      PrunedGet(init, k);
      GetAppend(init, last.0, last.1, k);
      HasKeyConcat(init, [last]);
      assert forall e :: HasKey([last], e) <==> e == last.0;
      if !OnlyMissing(last.1) {
        assert !HasKey(Pruned(init), last.0);
        GetAppend(Pruned(init), last.0, last.1, k);
        HasKeyConcat(Pruned(init), [last]);
        PutKeys(Pruned(init), last.0, last.1);
        assert Put(Pruned(init), last.0, last.1) == Pruned(init) + [last];
      } else {
        assert Pruned(errors) == Pruned(init);
      }
    }
  }

  lemma {:induction false} PrunedOnlyMissing(errors: Dict<seq<string>>)
    requires forall i :: 0 <= i < |errors| ==> OnlyMissing(errors[i].1)
    ensures Pruned(errors) == []
  {
    if errors != [] {
      PrunedOnlyMissing(errors[..|errors| - 1]);
    }
  }

  /** On update, a document whose only errors are missing values passes;
      on insert the same document is refused with all its errors. */
  lemma UpdateToleratesMissing(m: ModelClass, idType: Validator, dateType: Validator, doc: Value, now: int)
    requires !IsAbsent(doc)
    requires var errors := Check(FullSchema(m, idType, dateType), doc, now).errors;
      errors != [] && forall i :: 0 <= i < |errors| ==> OnlyMissing(errors[i].1)
    ensures ValidateDocument(m, idType, dateType, doc, true, now).Success?
    ensures ValidateDocument(m, idType, dateType, doc, false, now) ==
      Failure(Invalid(Check(FullSchema(m, idType, dateType), doc, now).errors))
  {
    PrunedOnlyMissing(Check(FullSchema(m, idType, dateType), doc, now).errors);
  }

  /** On update, any other error of a key still refuses the document, under
      that key. */
  lemma UpdateReportsOtherErrors(m: ModelClass, idType: Validator, dateType: Validator, doc: Value, now: int, k: string)
    requires !IsAbsent(doc)
    requires var errors := Check(FullSchema(m, idType, dateType), doc, now).errors;
      Get(errors, k).Some? && !OnlyMissing(Get(errors, k).value)
    ensures var r := ValidateDocument(m, idType, dateType, doc, true, now);
      r.Failure? && r.error.Invalid? && Get(r.error.errors, k) == Get(Check(FullSchema(m, idType, dateType), doc, now).errors, k)
  {
    var s := FullSchema(m, idType, dateType);
    var errors := Check(s, doc, now).errors;
    CheckDistinct(s, doc, now, |s.fields|);
    PrunedGet(errors, k);
  }

  // ---------------------------------------------------- attribute lemmas

  /** Walking a concatenated path walks its parts in turn. */
  lemma {:induction false} WalkConcat(v: Value, a: seq<string>, b: seq<string>)
    ensures Walk(v, a + b) == match Walk(v, a)
      case Success(w) => Walk(w, b)
      case Failure(e) => Failure(e)
    decreases |a|
  {
    if a == [] {
      assert [] + b == b;
    } else {
      assert (a + b)[0] == a[0] && (a + b)[1..] == a[1..] + b;
      if !IsAbsent(v) {
        WalkConcat(Member(v, a[0]), a[1..], b);
      }
    }
  }

  /** `getAttribute` of a dotted path walks its dot-free parts. */
  lemma GetAttributeFollowsPath(model: Model, parts: seq<string>)
    requires |parts| >= 1 && forall i :: 0 <= i < |parts| ==> '.' !in parts[i]
    ensures model.GetAttribute(Join(parts, '.')) == Walk(Obj(model.attributes), parts)
  {
    SplitJoin(parts, '.');
  }

  /** `getAttribute("a.b")` reads `b` of the object `a`, and throws when
      `a` is missing. */
  lemma GetAttributeTwoLevels(model: Model, parent: string, child: string)
    requires '.' !in parent && '.' !in child
    ensures var a := Member(Obj(model.attributes), parent);
      model.GetAttribute(parent + "." + child) ==
        if IsAbsent(a) then Failure(ReadError(child, a)) else Success(Member(a, child))
  {
    GetAttributeFollowsPath(model, [parent, child]);
    assert Join([parent, child], '.') == parent + "." + child by {
      assert Join([child], '.') == child;
      assert [parent, child][1..] == [child];
    }
    var a := Member(Obj(model.attributes), parent);
    assert [parent, child][1..] == [child] && [child][1..] == [];
    assert Walk(Obj(model.attributes), [parent, child]) == Walk(a, [child]);
    assert !IsAbsent(a) ==> Walk(a, [child]) == Walk(Member(a, child), []);
  }
}
