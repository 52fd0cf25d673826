/** The recursive rewriting of documents between the application's `id`
    and MongoDB's `_id` (`_prepareToRead`, `_prepareToStore`). */
module Documents {
  import opened Assoc
  import opened Strings
  import opened Json
  import opened MongoIds

  function LowerChar(c: char): char
  {
    if 'A' <= c <= 'Z' then (c as int + 32) as char else c
  }

  function Lower(s: string): (r: string)
    ensures |r| == |s|
  {
    seq(|s|, i requires 0 <= i < |s| => LowerChar(s[i]))
  }

  function HexDigit(d: nat): char
    requires d < 16
  {
    "0123456789abcdef"[d]
  }

  /** The two hexadecimal digits of a character taken as a byte. */
  function ByteHex(c: char): string
  {
    var b := c as int % 256;
    [HexDigit(b / 16), HexDigit(b % 16)]
  }

  /** The hexadecimal text of a string taken byte by byte. */
  function BytesHex(s: string): (r: string)
    ensures |r| == 2 * |s|
  {
    if s == [] then "" else ByteHex(s[0]) + BytesHex(s[1..])
  }

  /** `String(v)` / `v.toString()`. An ObjectId prints as lower-case hex:
      the 24 digits it was made from, or two digits per byte of the 12
      characters it was made from. Dates, functions, regular expressions
      and ObjectIds made from a number print a stand-in text. */
  function ToText(v: Value): string
  {
    match v
    case Undefined => "undefined"
    case Null => "null"
    case Bool(b) => if b then "true" else "false"
    case Num(n) => Decimal(n)
    case Str(s) => s
    case Date(t) => Decimal(t)
    case Oid(source) => if source.Str? && |source.s| == 12 then BytesHex(source.s) else Lower(ToText(source))
    case Regex(pattern, flags) => "/" + ToText(pattern) + "/" + flags
    case Fun(name) => name
    case Arr(items) => ItemsText(items)
    case Obj(_) => "[object Object]"
  }

  /** `Array.prototype.toString`: the items' texts joined by commas, with
      `null` and `undefined` as empty text. */
  function ItemsText(items: seq<Value>): string
  {
    if items == [] then ""
    else
      var first := if IsAbsent(items[0]) then "" else ToText(items[0]);
      if |items| == 1 then first else first + "," + ItemsText(items[1..])
  }

  /** An identity read from the store: `value && value.toString()`. */
  function IdText(v: Value): (r: Value)
    ensures Truthy(v) ==> r == Str(ToText(v))
    ensures !Truthy(v) ==> r == v
  {
    if Truthy(v) then Str(ToText(v)) else v
  }

  /** `_id` is read as `id`. */
  function ReadKey(k: string): string
  {
    if k == "_id" then "id" else k
  }

  /** `id` is stored as `_id`. */
  function StoreKey(k: string): string
  {
    if k == "id" then "_id" else k
  }

  /** Values that the rewriting walks into: arrays, plain objects and
      regular expressions. A regular expression is an object with no
      enumerable property of its own, so it becomes `{}`. Falsy values,
      scalars, dates and functions are returned as they are; so is an
      ObjectId here, although the source walks into its properties, which
      belong to bson. */
  predicate Walked(v: Value)
  {
    v.Arr? || v.Obj? || v.Regex?
  }

  /** `_prepareToRead`: every `_id` becomes `id`, at every level, and the
      values of identity keys become their text. */
  function PrepareToRead(v: Value): (r: Value)
    ensures !Walked(v) ==> r == v
    ensures v.Arr? ==> r.Arr? && |r.items| == |v.items|
    ensures v.Obj? ==> r.Obj?
    ensures v.Regex? ==> r == Obj([])
  {
    match v
    case Arr(items) => Arr(seq(|items|, i requires 0 <= i < |items| => PrepareToRead(items[i])))
    case Obj(fields) =>
      Obj(RenameKey(seq(|fields|, i requires 0 <= i < |fields| =>
        (fields[i].0, if IsId(fields[i].0) then IdText(fields[i].1) else PrepareToRead(fields[i].1))),
        "_id", "id"))
    case Regex(_, _) => Obj([])
    case _ => v
  }

  /** The value step of `_prepareToRead`, for a key. */
  function ReadValue(k: string, v: Value): Value
  {
    if IsId(k) then IdText(v) else PrepareToRead(v)
  }

  /** An identity stored: a valid ObjectId text becomes an ObjectId, and
      anything else is rewritten like other values. */
  function StoreId(v: Value): (r: Value)
    ensures IsValidObjectId(v) ==> r == NewObjectId(v)
    ensures !IsValidObjectId(v) ==> r == PrepareToStore(v)
  {
    if IsValidObjectId(v) then NewObjectId(v) else PrepareToStore(v)
  }

  /** `_prepareToStore`: every `id` becomes `_id`, at every level, and valid
      identity values become ObjectIds. */
  function PrepareToStore(v: Value): (r: Value)
    ensures !Walked(v) ==> r == v
    ensures v.Arr? ==> r.Arr? && |r.items| == |v.items|
    ensures v.Obj? ==> r.Obj?
    ensures v.Regex? ==> r == Obj([])
  {
    match v
    case Arr(items) => Arr(seq(|items|, i requires 0 <= i < |items| => PrepareToStore(items[i])))
    case Obj(fields) =>
      Obj(RenameKey(seq(|fields|, i requires 0 <= i < |fields| =>
        (fields[i].0,
         if IsId(fields[i].0) && IsValidObjectId(fields[i].1) then NewObjectId(fields[i].1)
         else PrepareToStore(fields[i].1))),
        "id", "_id"))
    case Regex(_, _) => Obj([])
    case _ => v
  }

  /** The value step of `_prepareToStore`, for a key. */
  function StoreValue(k: string, v: Value): Value
  {
    if IsId(k) then StoreId(v) else PrepareToStore(v)
  }

  /** Arrays are rewritten element by element. */
  lemma ArraysElementwise(items: seq<Value>)
    ensures forall i :: 0 <= i < |items| ==>
      PrepareToRead(Arr(items)).items[i] == PrepareToRead(items[i]) &&
      PrepareToStore(Arr(items)).items[i] == PrepareToStore(items[i])
  {
  }

  /** The object level of the stored form, as the function computes it. */
  lemma StoreObjectFields(fields: Dict<Value>)
    ensures PrepareToStore(Obj(fields)).fields == RenameKey(MapValues(fields, StoreValue), "id", "_id")
  {
    var s := seq(|fields|, i requires 0 <= i < |fields| =>
      (fields[i].0,
       if IsId(fields[i].0) && IsValidObjectId(fields[i].1) then NewObjectId(fields[i].1)
       else PrepareToStore(fields[i].1)));
    assert s == MapValues(fields, StoreValue);
  }

  /** The object level of the read form, as the function computes it. */
  lemma ReadObjectFields(fields: Dict<Value>)
    ensures PrepareToRead(Obj(fields)).fields == RenameKey(MapValues(fields, ReadValue), "_id", "id")
  {
    var s := seq(|fields|, i requires 0 <= i < |fields| =>
      (fields[i].0, if IsId(fields[i].0) then IdText(fields[i].1) else PrepareToRead(fields[i].1)));
    assert s == MapValues(fields, ReadValue);
  }

  /** The read rewriting is `mapKeys` followed by `mapValues`, in that
      order: the value step sees the renamed key. */
  lemma ReadRenamesThenMaps(fields: Dict<Value>)
    ensures PrepareToRead(Obj(fields)) == Obj(MapValues(RenameKey(fields, "_id", "id"), ReadValue))
  {
    RenameKeyMapValues(fields, "_id", "id", ReadValue);
    var m := MapValues(fields, ReadValue);
    ReadObjectFields(fields);
  }

  /** The same order for the store rewriting. */
  lemma StoreRenamesThenMaps(fields: Dict<Value>)
    ensures PrepareToStore(Obj(fields)) == Obj(MapValues(RenameKey(fields, "id", "_id"), StoreValue))
  {
    RenameKeyMapValues(fields, "id", "_id", StoreValue);
    var m := MapValues(fields, StoreValue);
    StoreObjectFields(fields);
  }

  /** The key `k` occurs in no object at any depth. */
  predicate NoKeyDeep(v: Value, k: string)
  {
    match v
    case Arr(items) => forall i :: 0 <= i < |items| ==> NoKeyDeep(items[i], k)
    case Obj(fields) => !HasKey(fields, k) && forall i :: 0 <= i < |fields| ==> NoKeyDeep(fields[i].1, k)
    case _ => true
  }

  lemma NoKeyDeepObject(fields: Dict<Value>, k: string)
    requires !HasKey(fields, k)
    requires forall i :: 0 <= i < |fields| ==> NoKeyDeep(fields[i].1, k)
    ensures NoKeyDeep(Obj(fields), k)
  {
  }

  /** One object level of the read rewriting introduces no `_id`. */
  lemma ReadObjectNoUnderscoreId(fields: Dict<Value>)
    requires forall j :: 0 <= j < |fields| ==> NoKeyDeep(ReadValue(fields[j].0, fields[j].1), "_id")
    ensures NoKeyDeep(PrepareToRead(Obj(fields)), "_id")
  {
    var m := MapValues(fields, ReadValue);
    ReadObjectFields(fields);
    var p := v => NoKeyDeep(v, "_id");
    RenamedValues(m, "_id", "id", p);
    var r := RenameKey(m, "_id", "id");
    forall i | 0 <= i < |r| ensures NoKeyDeep(r[i].1, "_id") {
      assert p(r[i].1);
    }
    NoKeyDeepObject(r, "_id");
  }

  /** A document read from the store has no `_id` left at any level. */
  lemma {:induction false} ReadLeavesNoUnderscoreId(v: Value)
    ensures NoKeyDeep(PrepareToRead(v), "_id")
    decreases v
  {
    match v
    case Arr(items) =>
      forall i | 0 <= i < |items| ensures NoKeyDeep(PrepareToRead(v).items[i], "_id") {
        ReadLeavesNoUnderscoreId(items[i]);
      }
    case Obj(fields) =>
      forall j | 0 <= j < |fields| ensures NoKeyDeep(ReadValue(fields[j].0, fields[j].1), "_id") {
        if !IsId(fields[j].0) { ReadLeavesNoUnderscoreId(fields[j].1); }
      }
      ReadObjectNoUnderscoreId(fields);
    case _ =>
  }

  /** One object level of the store rewriting introduces no `id`. */
  lemma StoreObjectNoId(fields: Dict<Value>)
    requires forall j :: 0 <= j < |fields| ==> NoKeyDeep(StoreValue(fields[j].0, fields[j].1), "id")
    ensures NoKeyDeep(PrepareToStore(Obj(fields)), "id")
  {
    var m := MapValues(fields, StoreValue);
    StoreObjectFields(fields);
    var p := v => NoKeyDeep(v, "id");
    RenamedValues(m, "id", "_id", p);
    var r := RenameKey(m, "id", "_id");
    forall i | 0 <= i < |r| ensures NoKeyDeep(r[i].1, "id") {
      assert p(r[i].1);
    }
    NoKeyDeepObject(r, "id");
  }

  /** A document prepared for the store has no `id` left at any level. */
  lemma {:induction false} StoreLeavesNoId(v: Value)
    ensures NoKeyDeep(PrepareToStore(v), "id")
    decreases v
  {
    match v
    case Arr(items) =>
      forall i | 0 <= i < |items| ensures NoKeyDeep(PrepareToStore(v).items[i], "id") {
        StoreLeavesNoId(items[i]);
      }
    case Obj(fields) =>
      forall j | 0 <= j < |fields| ensures NoKeyDeep(StoreValue(fields[j].0, fields[j].1), "id") {
        if !(IsId(fields[j].0) && IsValidObjectId(fields[j].1)) { StoreLeavesNoId(fields[j].1); }
      }
      StoreObjectNoId(fields);
    case _ =>
  }

  predicate IsLowerHex24(s: string)
  {
    IsHex24(s) && Lower(s) == s
  }

  /** An identity value that comes back from the store as it was: a falsy
      value other than `0`, or text that is not 12 characters long, and in
      lower case when it is an ObjectId's 24 digits. (`0`, other numbers and
      12-character texts are valid ids that come back as different text.) */
  predicate AppId(v: Value)
  {
    (!Truthy(v) && !v.Num?) || (v.Str? && |v.s| != 12 && (IsHex24(v.s) ==> IsLowerHex24(v.s)))
  }

  /** A document as the application holds it: distinct keys, no `_id`,
      identity values that come back as they were, and no ObjectId or
      regular expression outside an identity key, at every level. */
  predicate AppDocument(v: Value)
  {
    match v
    case Arr(items) => forall i :: 0 <= i < |items| ==> AppDocument(items[i])
    case Obj(fields) =>
      DistinctKeys(fields) && !HasKey(fields, "_id") &&
      forall i :: 0 <= i < |fields| ==>
        if IsId(fields[i].0) then AppId(fields[i].1) else AppDocument(fields[i].1)
    case Oid(_) => false
    case Regex(_, _) => false
    case _ => true
  }

  /** An identity value that goes back to the store as it was: a falsy
      value other than `0`, an ObjectId of 24 lower-case digits, or text
      that is not a valid id. */
  predicate StoredId(v: Value)
  {
    (!Truthy(v) && !v.Num?) || (v.Str? && !IsHex24(v.s) && |v.s| != 12) ||
    (v.Oid? && v.source.Str? && IsLowerHex24(v.source.s))
  }

  /** A document as the store holds it: distinct keys, no `id`, identity
      values that go back as they were, and no ObjectId or regular
      expression outside an identity key, at every level. */
  predicate StoredDocument(v: Value)
  {
    match v
    case Arr(items) => forall i :: 0 <= i < |items| ==> StoredDocument(items[i])
    case Obj(fields) =>
      DistinctKeys(fields) && !HasKey(fields, "id") &&
      forall i :: 0 <= i < |fields| ==>
        if IsId(fields[i].0) then StoredId(fields[i].1) else StoredDocument(fields[i].1)
    case Oid(_) => false
    case Regex(_, _) => false
    case _ => true
  }

  lemma ReadValueUnderStoreKey(k: string, x: Value)
    ensures ReadValue(StoreKey(k), x) == ReadValue(k, x)
  {
    assert IsId(StoreKey(k)) == IsId(k);
  }

  lemma StoreValueUnderReadKey(k: string, x: Value)
    ensures StoreValue(ReadKey(k), x) == StoreValue(k, x)
  {
    assert IsId(ReadKey(k)) == IsId(k);
  }

  /** One object level of the write form: a pair per field, keys renamed
      `id` to `_id`. */
  lemma StoredLevel(fields: Dict<Value>)
    requires DistinctKeys(fields) && !HasKey(fields, "_id")
    ensures var n := PrepareToStore(Obj(fields)).fields;
      |n| == |fields| && DistinctKeys(n) && !HasKey(n, "id") &&
      forall i :: 0 <= i < |n| ==> n[i] == (StoreKey(fields[i].0), StoreValue(fields[i].0, fields[i].1))
  {
    var m := MapValues(fields, StoreValue);
    StoreObjectFields(fields);
    SameKeys(m, fields);
    RenameKeyIsRenamed(m, "id", "_id");
    RenamedDistinct(m, "id", "_id");
    var n := Renamed(m, "id", "_id");
    assert !HasKey(n, "id") by {
      forall i | 0 <= i < |n| ensures n[i].0 != "id" {
        assert n[i].0 == StoreKey(fields[i].0);
      }
    }
  }

  /** One object level of the read form: a pair per field, keys renamed
      `_id` to `id`. */
  lemma ReadLevel(fields: Dict<Value>)
    requires DistinctKeys(fields) && !HasKey(fields, "id")
    ensures var n := PrepareToRead(Obj(fields)).fields;
      |n| == |fields| && DistinctKeys(n) && !HasKey(n, "_id") &&
      forall i :: 0 <= i < |n| ==> n[i] == (ReadKey(fields[i].0), ReadValue(fields[i].0, fields[i].1))
  {
    var m := MapValues(fields, ReadValue);
    ReadObjectFields(fields);
    SameKeys(m, fields);
    RenameKeyIsRenamed(m, "_id", "id");
    RenamedDistinct(m, "_id", "id");
    var n := Renamed(m, "_id", "id");
    assert !HasKey(n, "_id") by {
      forall i | 0 <= i < |n| ensures n[i].0 != "_id" {
        assert n[i].0 == ReadKey(fields[i].0);
      }
    }
  }

  /** One object level of the round trip through the store. */
  lemma ReadAfterStoreObject(fields: Dict<Value>)
    requires DistinctKeys(fields) && !HasKey(fields, "_id")
    requires forall j :: 0 <= j < |fields| ==>
      ReadValue(fields[j].0, StoreValue(fields[j].0, fields[j].1)) == fields[j].1
    ensures PrepareToRead(PrepareToStore(Obj(fields))) == Obj(fields)
  {
    StoredLevel(fields);
    var n := PrepareToStore(Obj(fields)).fields;
    ReadLevel(n);
    var back := PrepareToRead(Obj(n)).fields;
    forall i | 0 <= i < |fields| ensures back[i] == fields[i] {
      var k := fields[i].0;
      assert k != "_id";
      ReadValueUnderStoreKey(k, StoreValue(k, fields[i].1));
    }
    assert back == fields;
  }

  /** One object level of the round trip from the store. */
  lemma StoreAfterReadObject(fields: Dict<Value>)
    requires DistinctKeys(fields) && !HasKey(fields, "id")
    requires forall j :: 0 <= j < |fields| ==>
      StoreValue(fields[j].0, ReadValue(fields[j].0, fields[j].1)) == fields[j].1
    ensures PrepareToStore(PrepareToRead(Obj(fields))) == Obj(fields)
  {
    ReadLevel(fields);
    var n := PrepareToRead(Obj(fields)).fields;
    StoredLevel(n);
    var back := PrepareToStore(Obj(n)).fields;
    forall i | 0 <= i < |fields| ensures back[i] == fields[i] {
      var k := fields[i].0;
      assert k != "id";
      StoreValueUnderReadKey(k, ReadValue(k, fields[i].1));
    }
    assert back == fields;
  }

  /** An application identity survives the round trip through the store. */
  lemma AppIdRoundTrip(x: Value)
    requires AppId(x)
    ensures IdText(StoreId(x)) == x
  {
    if Truthy(x) && IsValidObjectId(x) {
      assert ToText(Oid(x)) == Lower(x.s);
    }
  }

  /** A 12-character id is valid: it is stored as the ObjectId of its
      bytes and read back as their 24-digit hexadecimal text, never as
      itself. */
  lemma TwelveCharacterIdChanges(s: string)
    requires |s| == 12
    ensures IsValidObjectId(Str(s))
    ensures IdText(StoreId(Str(s))) == Str(BytesHex(s))
    ensures |BytesHex(s)| == 24 && IdText(StoreId(Str(s))) != Str(s)
    ensures BytesHex(s)[..2] == ByteHex(s[0])
  {
    assert BytesHex(s) == ByteHex(s[0]) + BytesHex(s[1..]);
  }

  /** A regular expression in a document is stored as an empty object and
      read as one. */
  lemma PatternBecomesEmptyObject(p: Value, flags: string)
    ensures PrepareToStore(Obj([("pattern", Regex(p, flags))])) == Obj([("pattern", Obj([]))])
    ensures PrepareToRead(Obj([("pattern", Regex(p, flags))])) == Obj([("pattern", Obj([]))])
  {
    var fields := [("pattern", Regex(p, flags))];
    assert !IsId("pattern") by {
      assert "pattern"[4..] == "ern";
    }
    StoredLevel(fields);
    ReadLevel(fields);
  }

  /** A stored identity survives the round trip from the store. */
  lemma StoredIdRoundTrip(x: Value)
    requires StoredId(x)
    ensures StoreId(IdText(x)) == x
  {
    if x.Oid? {
      assert ToText(x) == Lower(x.source.s);
    }
  }

  /** Reading back what was prepared for the store gives the application's
      document again. */
  lemma {:induction false} ReadAfterStore(v: Value)
    requires AppDocument(v)
    ensures PrepareToRead(PrepareToStore(v)) == v
    decreases v
  {
    match v
    case Arr(items) =>
      forall i | 0 <= i < |items| ensures PrepareToRead(PrepareToStore(v)).items[i] == items[i] {
        ReadAfterStore(items[i]);
      }
    case Obj(fields) =>
      forall j | 0 <= j < |fields|
        ensures ReadValue(fields[j].0, StoreValue(fields[j].0, fields[j].1)) == fields[j].1
      {
        if IsId(fields[j].0) { AppIdRoundTrip(fields[j].1); } else { ReadAfterStore(fields[j].1); }
      }
      ReadAfterStoreObject(fields);
    case _ =>
  }

  /** Storing again what was read gives the stored document again. */
  lemma {:induction false} StoreAfterRead(v: Value)
    requires StoredDocument(v)
    ensures PrepareToStore(PrepareToRead(v)) == v
    decreases v
  {
    match v
    case Arr(items) =>
      forall i | 0 <= i < |items| ensures PrepareToStore(PrepareToRead(v)).items[i] == items[i] {
        StoreAfterRead(items[i]);
      }
    case Obj(fields) =>
      forall j | 0 <= j < |fields|
        ensures StoreValue(fields[j].0, ReadValue(fields[j].0, fields[j].1)) == fields[j].1
      {
        if IsId(fields[j].0) { StoredIdRoundTrip(fields[j].1); } else { StoreAfterRead(fields[j].1); }
      }
      StoreAfterReadObject(fields);
    case _ =>
  }
}
