/** Identity fields and operator names of the MongoDB driver
    (`isID`, `prepareKey`, `prepareValue`, `OPERATORS`). */
module MongoIds {
  import opened Strings
  import opened Json

  /** `isID`: the key is `id` or ends in `_id`. */
  predicate IsId(key: string)
  {
    key == "id" || EndsWith(key, "_id")
  }

  /** `prepareKey`: the application's `id` is MongoDB's `_id`. */
  function PrepareKey(key: string): (r: string)
    ensures r != key <==> key == "id"
    ensures key == "id" ==> r == "_id"
    ensures IsId(r) == IsId(key)
    ensures r != "id"
  {
    if key == "id" then "_id" else key
  }

  predicate IsHexDigit(c: char)
  {
    ('0' <= c <= '9') || ('a' <= c <= 'f') || ('A' <= c <= 'F')
  }

  /** A 24-digit hexadecimal string, the textual form of an ObjectId. */
  predicate IsHex24(s: string)
  {
    |s| == 24 && forall i :: 0 <= i < |s| ==> IsHexDigit(s[i])
  }

  /** bson's `ObjectId.isValid`: an ObjectId, any number (taken as a
      timestamp), a string of 12 characters (taken as the id's 12 bytes), or
      the 24 hexadecimal digits of an id. */
  predicate IsValidObjectId(v: Value)
  {
    v.Oid? || v.Num? || (v.Str? && (|v.s| == 12 || IsHex24(v.s)))
  }

  /** `new ObjectId(v)`: an ObjectId given an ObjectId is the same id. */
  function NewObjectId(v: Value): (r: Value)
    ensures r.Oid?
    ensures v.Oid? ==> r == v
  {
    if v.Oid? then v else Oid(v)
  }

  /** `prepareValue(field, value)`. */
  function PrepareValue(field: string, value: Value): (r: Value)
    ensures !IsId(field) ==> r == value
    ensures IsId(field) && value.Arr? ==>
      r.Arr? && |r.items| == |value.items| &&
      forall i :: 0 <= i < |value.items| ==> r.items[i] == NewObjectId(value.items[i])
    ensures IsId(field) && !value.Arr? && !IsValidObjectId(value) ==> r == value
    ensures IsId(field) && !value.Arr? && IsValidObjectId(value) ==> r.Oid? && r == NewObjectId(value)
  {
    if !IsId(field) then value
    else if value.Arr? then Arr(seq(|value.items|, i requires 0 <= i < |value.items| => NewObjectId(value.items[i])))
    else if !IsValidObjectId(value) then value
    else NewObjectId(value)
  }

  /** Preparing a prepared value changes nothing more. */
  lemma PrepareValueIdempotent(field: string, value: Value)
    ensures PrepareValue(field, PrepareValue(field, value)) == PrepareValue(field, value)
  {
    if IsId(field) && value.Arr? {
      var once := PrepareValue(field, value);
      assert PrepareValue(field, once).items == once.items;
    }
  }

  /** `OPERATORS`: comparison symbols to MongoDB operator names. */
  const Operators: map<string, string> :=
    map["<" := "lt", "<=" := "lte", "=" := "eq", "<>" := "ne", ">=" := "gte", ">" := "gt"]

  /** `OPERATORS[operator]` as it ends up in a `$${…}` template: a symbol
      outside the table reads as `undefined`. */
  function OperatorName(operator: Value): (r: string)
    ensures operator.Str? && operator.s in Operators ==> r == Operators[operator.s]
    ensures !(operator.Str? && operator.s in Operators) ==> r == "undefined"
  {
    if operator.Str? && operator.s in Operators then Operators[operator.s] else "undefined"
  }

  /** `where(field, value)` means `where(field, "=", value)`: when the third
      argument is `undefined` the second one is the value. */
  function Arguments(operator: Value, value: Value): (r: (string, Value))
    ensures value.Undefined? ==> r == ("eq", operator)
    ensures !value.Undefined? ==> r == (OperatorName(operator), value)
  {
    if value.Undefined? then (OperatorName(Str("=")), operator) else (OperatorName(operator), value)
  }

  lemma TwoArgumentWhereIsEquality(v: Value)
    ensures v != Undefined ==> Arguments(v, Undefined) == Arguments(Str("="), v)
    ensures Arguments(Str("="), Undefined) == ("eq", Str("="))
  {
  }
}
