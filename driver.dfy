/** Command assembly of the MongoDB driver: the filter it keeps, the
    aggregation stages it appends, the `$lookup` built by `join`, and the
    documents handed to the store's insert, update, count and delete
    calls. The store itself is not modelled: what it answers is a
    parameter of the method that reads the answer. */
module MongoDriver {
  import opened Wrappers
  import opened Assoc
  import opened Strings
  import opened Json
  import opened MongoIds
  import opened Filtering
  import opened Documents

  /** One `$expr` comparison of a join: `{ $op: ["$field", "$$pivot_key"] }`. */
  datatype ExprCondition = ExprCondition(op: string, left: string, right: string)

  /** The aggregation stages the driver emits. */
  datatype Stage =
    /** `{ $lookup: { alias, from, let, pipeline } }` */
    | Lookup(alias: string, from: string, let: Dict<string>, pipeline: seq<Stage>)
    /** `{ $match: { $expr: { $and: [...] } } }` */
    | MatchExpr(conditions: seq<ExprCondition>)
    /** `{ $match: filter }` */
    | Match(filter: Filters)
    /** `{ $sort: { [field]: order } }` */
    | Sort(field: string, order: int)
    | Skip(offset: int)
    | Limit(limit: int)
    /** `{ $project: {...} }` */
    | Project(fields: Dict<Value>)
    /** `{ $group: { _id: null, [name]: { [accumulator]: "$field" } } }` */
    | GroupAll(name: string, accumulator: string, field: string)
    /** `{ $unwind: { path, preserveNullAndEmptyArrays } }` */
    | Unwind(path: string, preserveNullAndEmptyArrays: bool)
    /** any other object handed to `pipeline(...)` */
    | Raw(stage: Value)

  /** What the driver asks the collection to do. */
  datatype Command =
    | Aggregate(stages: seq<Stage>)
    | CountDocuments(filter: Filters)
    | InsertOne(document: Value)
    | InsertMany(documents: seq<Value>)
    | UpdateMany(filter: Filters, update: Value)
    | DeleteMany(filter: Filters)

  /** A function registered with `map`; the driver registers the read
      rewriting of documents itself. */
  datatype Mapper = ReadDocument | Custom(f: Value -> Value)

  function ApplyMapper(m: Mapper, row: Value): Value
  {
    match m
    case ReadDocument => PrepareToRead(row)
    case Custom(f) => f(row)
  }

  /** The cursor's `map` calls compose in registration order. */
  function ApplyMappers(ms: seq<Mapper>, row: Value): Value
    decreases |ms|
  {
    if ms == [] then row else ApplyMappers(ms[1..], ApplyMapper(ms[0], row))
  }

  /** The aggregation sent by `_aggregate`. */
  function Aggregation(f: Filters, pipeline: seq<Stage>): (r: seq<Stage>)
    ensures |r| == |pipeline| + 1
    ensures r[0] == Match(DriverView(f)) && r[1..] == pipeline
    ensures forall i :: 0 <= i < |pipeline| ==> r[i + 1] == pipeline[i]
  {
    [Match(DriverView(f))] + pipeline
  }

  /** `order === "desc" ? -1 : 1`. */
  function SortOrder(order: Value): (r: int)
    ensures r == -1 || r == 1
    ensures r == -1 <==> order == Str("desc")
  {
    if order == Str("desc") then -1 else 1
  }

  /** The `$project` document of `get(fields)`/`first(fields)`: `_id: 0`,
      then `prepareKey(f): 1` for each field in turn. */
  function Projection(fields: seq<string>): Dict<Value>
    decreases |fields|
  {
    if fields == [] then [("_id", Num(0))]
    else Put(Projection(fields[..|fields| - 1]), PrepareKey(fields[|fields| - 1]), Num(1))
  }

  /** Some field of the list names `key` once prepared. */
  predicate Projects(fields: seq<string>, key: string)
  {
    exists i :: 0 <= i < |fields| && PrepareKey(fields[i]) == key
  }

  /** A field list with one more field projects what the shorter one did,
      and the new field. */
  lemma ProjectsLast(fields: seq<string>, key: string)
    requires fields != []
    ensures Projects(fields, key) <==>
            Projects(fields[..|fields| - 1], key) || PrepareKey(fields[|fields| - 1]) == key
  {
    var init := fields[..|fields| - 1];
    if Projects(fields, key) && PrepareKey(fields[|fields| - 1]) != key {
      var i :| 0 <= i < |fields| && PrepareKey(fields[i]) == key;
      assert i < |init| && init[i] == fields[i];
    }
    if Projects(init, key) {
      var i :| 0 <= i < |init| && PrepareKey(init[i]) == key;
      assert fields[i] == init[i];
    }
  }

  /** The projection's keys are distinct and `_id` stays first. */
  lemma {:induction false} ProjectionShape(fields: seq<string>)
    ensures DistinctKeys(Projection(fields))
    ensures |Projection(fields)| >= 1 && Projection(fields)[0].0 == "_id"
    decreases |fields|
  {
    if fields == [] {
      assert [("_id", Num(0))][0].0 == "_id";
    } else {
      var init := fields[..|fields| - 1];
      var last := PrepareKey(fields[|fields| - 1]);
      ProjectionShape(init);
      var d := Projection(init);
      PutKeys(d, last, Num(1));
      if HasKey(d, last) {
        assert Put(d, last, Num(1))[0].0 == d[0].0;
      } else {
        assert Put(d, last, Num(1))[0] == d[0];
      }
    }
  }

  /** What the projection says of one key. */
  lemma {:induction false} ProjectionGet(fields: seq<string>, key: string)
    ensures Get(Projection(fields), key) ==
            if Projects(fields, key) then Some(Num(1))
            else if key == "_id" then Some(Num(0))
            else None
    decreases |fields|
  {
    if fields == [] {
      PutGet([], "_id", Num(0), key);
      assert Put([], "_id", Num(0)) == [("_id", Num(0))];
    } else {
      var init := fields[..|fields| - 1];
      ProjectionGet(init, key);
      PutGet(Projection(init), PrepareKey(fields[|fields| - 1]), Num(1), key);
      ProjectsLast(fields, key);
    }
  }

  /** Every listed field is shown, `_id` is hidden unless listed, and
      nothing else appears; keys are distinct and `_id` stays first. */
  lemma ProjectionContents(fields: seq<string>, key: string)
    ensures Get(Projection(fields), key) ==
            if Projects(fields, key) then Some(Num(1))
            else if key == "_id" then Some(Num(0))
            else None
    ensures DistinctKeys(Projection(fields))
    ensures |Projection(fields)| >= 1 && Projection(fields)[0].0 == "_id"
  {
    ProjectionGet(fields, key);
    ProjectionShape(fields);
  }

  /** The projection stages `get(fields)` appends: one when a list is given
      (even an empty one, which is truthy), none otherwise. */
  function ProjectStages(fields: Option<seq<string>>): (r: seq<Stage>)
    ensures fields.None? <==> r == []
    ensures fields.Some? ==> r == [Project(Projection(fields.value))]
  {
    if fields.Some? then [Project(Projection(fields.value))] else []
  }

  /** `first(fields)` limits to one row before it projects. */
  lemma FirstLimitsBeforeProjecting(f: Filters, pipeline: seq<Stage>, fields: seq<string>)
    ensures var r := Aggregation(f, pipeline + [Limit(1)] + ProjectStages(Some(fields)));
      |r| == |pipeline| + 3 && r[|pipeline| + 1] == Limit(1) &&
      r[|pipeline| + 2].Project? && r[|pipeline| + 2].fields[0] == ("_id", Num(if Projects(fields, "_id") then 1 else 0))
  {
    ProjectionContents(fields, "_id");
  }

  /** `count === undefined` (or a callback in its place) counts 1. */
  function IncrementAmount(count: Value): (r: Value)
    ensures count.Undefined? || count.Fun? ==> r == Num(1)
    ensures !(count.Undefined? || count.Fun?) ==> r == count
  {
    if count.Undefined? || count.Fun? then Num(1) else count
  }

  /** The store's insert call: arrays go to `insertMany` element by element,
      anything else to `insertOne`. */
  function InsertCommand(item: Value): (r: Command)
    ensures item.Arr? ==>
              r.InsertMany? && |r.documents| == |item.items| &&
              forall i :: 0 <= i < |item.items| ==> r.documents[i] == PrepareToStore(item.items[i])
    ensures !item.Arr? ==> r == InsertOne(PrepareToStore(item))
  {
    var stored := PrepareToStore(item);
    if stored.Arr? then InsertMany(stored.items) else InsertOne(stored)
  }

  /** `max`, `min` and `avg`. */
  datatype Accumulator = Max | Min | Avg

  function AccumulatorName(a: Accumulator): string
  {
    match a
    case Max => "max"
    case Min => "min"
    case Avg => "avg"
  }

  function GroupStage(a: Accumulator, field: string): (r: Stage)
    ensures r.GroupAll? && r.name == AccumulatorName(a) && r.accumulator == "$" + r.name && r.field == "$" + field
  {
    GroupAll(AccumulatorName(a), "$" + AccumulatorName(a), "$" + field)
  }

  /** `res[0].max`: reading the first row of an empty answer fails. */
  function GroupResult(a: Accumulator, rows: seq<Value>): (r: Result<Value, string>)
    ensures rows == [] <==> r.Failure?
    ensures rows != [] ==> r == Success(Member(rows[0], AccumulatorName(a)))
  {
    if rows == [] then Failure("Cannot read property '" + AccumulatorName(a) + "' of undefined")
    else Success(Member(rows[0], AccumulatorName(a)))
  }

  /** One `on(field, operator, value)` inside a `join` query callback. */
  datatype On = On(field: string, operator: Value, value: Value)

  predicate LineTerminator(c: char)
  {
    c == '\n' || c == '\r' || c == '\U{2028}' || c == '\U{2029}'
  }

  /** `new RegExp("^" + owner + "..+").test(value)` for a string value:
      the owner's table name followed by at least two characters that are
      not line terminators (the `\.` of the template is a plain `.`). */
  predicate IsPivotReference(owner: string, v: Value)
  {
    v.Str? && StartsWith(v.s, owner) && |v.s| >= |owner| + 2 &&
    !LineTerminator(v.s[|owner|]) && !LineTerminator(v.s[|owner| + 1])
  }

  /** The column path after the table name, its last segment prepared:
      `"users.id"` gives `"_id"`. Without a `.` the popped segment is
      `undefined` and the joined path is empty. */
  function PivotPath(s: string): string
  {
    var keys := Split(s, '.')[1..];
    if keys == [] then ""
    else Join(keys[..|keys| - 1] + [PrepareKey(keys[|keys| - 1])], '.')
  }

  /** The `let`, `$expr` and `$match` lists filled by the `on` calls. */
  datatype JoinParts = JoinParts(let: Dict<string>, exprs: seq<ExprCondition>, matches: seq<Node>)

  /** One `on` call. */
  function OnStep(owner: string, p: JoinParts, o: On): JoinParts
  {
    var (op, v) := Arguments(o.operator, o.value);
    if IsPivotReference(owner, v) then
      var key := PivotPath(v.s);
      JoinParts(Put(p.let, "pivot_" + key, "$" + key),
                p.exprs + [ExprCondition("$" + op, "$" + PrepareKey(o.field), "$$pivot_" + key)],
                p.matches)
    else
      JoinParts(p.let, p.exprs, p.matches + [Condition(o.field, op, v)])
  }

  function Parts(owner: string, ons: seq<On>): JoinParts
    decreases |ons|
  {
    if ons == [] then JoinParts([], [], [])
    else OnStep(owner, Parts(owner, ons[..|ons| - 1]), ons[|ons| - 1])
  }

  /** The `let` variable an `on` call binds, if its value is a pivot. */
  function PivotVariable(owner: string, o: On): Option<string>
  {
    var v := Arguments(o.operator, o.value).1;
    if IsPivotReference(owner, v) then Some("pivot_" + PivotPath(v.s)) else None
  }

  /** The `$lookup` stage of `join(from, query, alias)` on the owner's table. */
  function LookupStage(owner: string, from: string, ons: seq<On>, alias: string): (r: Stage)
    ensures r.Lookup? && r.from == from && r.alias == alias
    ensures r.let == Parts(owner, ons).let
  {
    var p := Parts(owner, ons);
    Lookup(alias, from, p.let,
      (if p.exprs != [] then [MatchExpr(p.exprs)] else []) +
      (if p.matches != [] then [Match(Filters(Some(p.matches), None))] else []))
  }

  /** Every `on` call lands in exactly one of the two lists; `let` has
      distinct names and at most one per `$expr` comparison. */
  lemma {:induction false} PartsCount(owner: string, ons: seq<On>)
    ensures |Parts(owner, ons).exprs| + |Parts(owner, ons).matches| == |ons|
    ensures DistinctKeys(Parts(owner, ons).let)
    ensures |Parts(owner, ons).let| <= |Parts(owner, ons).exprs|
    decreases |ons|
  {
    if ons != [] {
      var p := Parts(owner, ons[..|ons| - 1]);
      PartsCount(owner, ons[..|ons| - 1]);
      var o := ons[|ons| - 1];
      var v := Arguments(o.operator, o.value).1;
      if IsPivotReference(owner, v) {
        PutKeys(p.let, "pivot_" + PivotPath(v.s), "$" + PivotPath(v.s));
      }
    }
  }

  /** What one `on` call does to `let`. */
  lemma OnStepLet(owner: string, p: JoinParts, o: On)
    ensures PivotVariable(owner, o).None? ==> OnStep(owner, p, o).let == p.let
    ensures PivotVariable(owner, o).Some? ==>
      var k := PivotVariable(owner, o).value;
      |k| >= 6 && k[..6] == "pivot_" && OnStep(owner, p, o).let == Put(p.let, k, "$" + k[6..])
  {
    var v := Arguments(o.operator, o.value).1;
    if IsPivotReference(owner, v) {
      var key := PivotPath(v.s);
      assert ("pivot_" + key)[..6] == "pivot_" && ("pivot_" + key)[6..] == key;
    }
  }

  /** The `let` variables the `on` calls bind, in call order. */
  function Pivots(owner: string, ons: seq<On>): seq<string>
    decreases |ons|
  {
    if ons == [] then []
    else
      var last := PivotVariable(owner, ons[|ons| - 1]);
      Pivots(owner, ons[..|ons| - 1]) + if last.Some? then [last.value] else []
  }

  /** `let` binds exactly the pivot variables of the pivot `on` calls, each
      to the `$` path of its column. */
  lemma {:induction false} PartsLet(owner: string, ons: seq<On>, k: string)
    ensures HasKey(Parts(owner, ons).let, k) <==> k in Pivots(owner, ons)
    ensures HasKey(Parts(owner, ons).let, k) ==>
            |k| >= 6 && k[..6] == "pivot_" && Get(Parts(owner, ons).let, k) == Some("$" + k[6..])
    decreases |ons|
  {
    if ons != [] {
      var init := ons[..|ons| - 1];
      var o := ons[|ons| - 1];
      var p := Parts(owner, init);
      assert Parts(owner, ons) == OnStep(owner, p, o);
      PartsLet(owner, init, k);
      OnStepLet(owner, p, o);
      if PivotVariable(owner, o).Some? {
        var x := PivotVariable(owner, o).value;
        PutKeys(p.let, x, "$" + x[6..]);
        PutGet(p.let, x, "$" + x[6..], k);
      }
    }
  }

  /** The sub-pipeline of the `$lookup`: at most the `$expr` match, then the
      plain match; a match is emitted only if it has a condition, so the
      pipeline is empty exactly when the query called `on` zero times. */
  lemma LookupPipeline(owner: string, from: string, ons: seq<On>, alias: string)
    ensures var r := LookupStage(owner, from, ons, alias);
      |r.pipeline| <= 2 && (r.pipeline == [] <==> ons == []) &&
      (forall i :: 0 <= i < |r.pipeline| ==>
        (r.pipeline[i].MatchExpr? && r.pipeline[i].conditions != [] && i == 0) ||
        (r.pipeline[i].Match? && r.pipeline[i].filter.and.Some? && r.pipeline[i].filter.and.value != [] &&
         r.pipeline[i].filter.or.None?))
  {
    PartsCount(owner, ons);
  }

  /** `"<owner>.<column>"` names the owner's column. */
  lemma OwnerColumn(owner: string, column: string)
    requires '.' !in owner && '.' !in column
    requires column != [] && !LineTerminator(column[0])
    ensures IsPivotReference(owner, Str(owner + "." + column))
    ensures PivotPath(owner + "." + column) == PrepareKey(column)
  {
    var s := owner + "." + column;
    assert Join([owner, column], '.') == s;
    SplitJoin([owner, column], '.');
    assert Split(s, '.')[1..] == [column];
    assert [column][..0] + [PrepareKey(column)] == [PrepareKey(column)];
    assert s[|owner|] == '.' && s[|owner| + 1] == column[0];
    assert s[..|owner|] == owner;
  }

  /** A relation join: `on(foreignKey, "<owner>.<localKey>")` compares the
      joined document's key with the owner's column through one `let`
      variable. */
  lemma RelationJoin(owner: string, from: string, foreignKey: string, localKey: string, alias: string)
    requires '.' !in owner && '.' !in localKey
    requires localKey != [] && !LineTerminator(localKey[0])
    ensures var key := PrepareKey(localKey);
      LookupStage(owner, from, [On(foreignKey, Str(owner + "." + localKey), Undefined)], alias) ==
      Lookup(alias, from, [("pivot_" + key, "$" + key)],
             [MatchExpr([ExprCondition("$eq", "$" + PrepareKey(foreignKey), "$$pivot_" + key)])])
  {
    var o := On(foreignKey, Str(owner + "." + localKey), Undefined);
    var key := PrepareKey(localKey);
    OwnerColumn(owner, localKey);
    assert [o][..0] == [];
    var p := OnStep(owner, JoinParts([], [], []), o);
    assert Parts(owner, [o]) == p;
    assert Operators["="] == "eq";
    assert Arguments(o.operator, o.value) == ("eq", Str(owner + "." + localKey));
    var v := Str(owner + "." + localKey);
    assert IsPivotReference(owner, v) && PivotPath(v.s) == key;
    assert p.let == Put([], "pivot_" + key, "$" + key);
    assert Put([], "pivot_" + key, "$" + key) == [("pivot_" + key, "$" + key)];
    assert "$" + "eq" == "$eq";
    var e := ExprCondition("$eq", "$" + PrepareKey(foreignKey), "$$pivot_" + key);
    assert [] + [e] == [e];
    assert p.exprs == [ExprCondition("$eq", "$" + PrepareKey(foreignKey), "$$pivot_" + key)];
    assert p.matches == [];
    assert p == JoinParts([("pivot_" + key, "$" + key)],
                          [ExprCondition("$eq", "$" + PrepareKey(foreignKey), "$$pivot_" + key)], []);
  }

  /** A prefix of `text + suffix` is a prefix of `text` or holds the first
      character of `suffix`. */
  lemma PrefixOfExtension(text: string, suffix: string, prefix: string)
    requires suffix != []
    ensures StartsWith(text + suffix, prefix) ==> StartsWith(text, prefix) || suffix[0] in prefix
  {
    if StartsWith(text + suffix, prefix) {
      if |prefix| <= |text| {
        assert (text + suffix)[..|prefix|] == text[..|prefix|];
      } else {
        assert prefix[|text|] == (text + suffix)[|text|] == suffix[0];
      }
    }
  }

  /** The default join query `on(tableId, "<from>.id")`, unless the joined
      table's name starts with the owner's, compares the key with the
      literal text `"<from>.id"` in a plain match. */
  lemma DefaultJoinIsPlainMatch(owner: string, from: string, tableId: string)
    requires '.' !in owner && !StartsWith(from, owner)
    ensures LookupStage(owner, from, [On(tableId, Str(from + ".id"), Undefined)], from) ==
            Lookup(from, from, [], [Match(Filters(Some([Condition(tableId, "eq", Str(from + ".id"))]), None))])
  {
    var o := On(tableId, Str(from + ".id"), Undefined);
    var s := from + ".id";
    PrefixOfExtension(from, ".id", owner);
    assert !IsPivotReference(owner, Str(s));
    assert [o][..0] == [];
    assert Parts(owner, [o]) == JoinParts([], [], [Condition(tableId, "eq", Str(s))]);
  }

  /** The driver behind a `Query`: one collection, its filter tree, the
      appended aggregation stages and the registered row mappers. */
  class Driver {
    var table: string
    var filters: Filters
    var pipeline: seq<Stage>
    var mappers: seq<Mapper>

    ghost predicate Valid()
      reads this
    {
      WellFormed(filters) && |mappers| >= 1 && mappers[0].ReadDocument?
    }

    /** `new Driver(query)` followed by `table(name)`. */
    constructor (name: string)
      ensures Valid()
      ensures table == name && filters == Empty && pipeline == [] && mappers == [ReadDocument]
    {
      table := name;
      filters := Empty;
      pipeline := [];
      mappers := [ReadDocument];
    }

    /** The `where*` methods the driver shares with `Filter`
        (`_push_filter`, `_where`, `_or_where`). */
    method Call(call: Call)
      requires Valid() && DriverCall(call)
      modifies this
      ensures Valid()
      ensures filters == Apply(old(filters), call)
      ensures table == old(table) && pipeline == old(pipeline) && mappers == old(mappers)
    {
      filters := Apply(filters, call);
    }

    /** `pipeline(...objs)`. */
    method Pipeline(stages: seq<Stage>)
      modifies this
      ensures pipeline == old(pipeline) + stages
      ensures table == old(table) && filters == old(filters) && mappers == old(mappers)
    {
      pipeline := pipeline + stages;
    }

    /** `map(fn)`. */
    method Map(f: Value -> Value)
      requires Valid()
      modifies this
      ensures Valid()
      ensures mappers == old(mappers) + [Custom(f)]
      ensures table == old(table) && filters == old(filters) && pipeline == old(pipeline)
    {
      mappers := mappers + [Custom(f)];
    }

    method OrderBy(field: string, order: Value)
      modifies this
      ensures pipeline == old(pipeline) + [Sort(field, SortOrder(order))]
      ensures table == old(table) && filters == old(filters) && mappers == old(mappers)
    {
      Pipeline([Sort(field, SortOrder(order))]);
    }

    method SkipRows(offset: int)
      modifies this
      ensures pipeline == old(pipeline) + [Skip(offset)]
      ensures table == old(table) && filters == old(filters) && mappers == old(mappers)
    {
      Pipeline([Skip(offset)]);
    }

    method LimitRows(limit: int)
      modifies this
      ensures pipeline == old(pipeline) + [Limit(limit)]
      ensures table == old(table) && filters == old(filters) && mappers == old(mappers)
    {
      Pipeline([Limit(limit)]);
    }

    /** The `LET`/`EXPR_MATCH`/`MATCH` lists of `join`, filled by the `on`
        calls in order, and the `$lookup` built from them. */
    method BuildLookup(from: string, ons: seq<On>, alias: string) returns (stage: Stage)
      ensures stage == LookupStage(table, from, ons, alias)
    {
      var let, exprs, matches := CollectParts(ons);
      var sub: seq<Stage> := [];
      if exprs != [] {
        sub := sub + [MatchExpr(exprs)];
      }
      if matches != [] {
        sub := sub + [Match(Filters(Some(matches), None))];
      }
      assert sub == (if exprs != [] then [MatchExpr(exprs)] else []) +
        (if matches != [] then [Match(Filters(Some(matches), None))] else []);
      stage := Lookup(alias, from, let, sub);
    }

    /** The loop over the `on` calls of a join query. */
    method CollectParts(ons: seq<On>) returns (let: Dict<string>, exprs: seq<ExprCondition>, matches: seq<Node>)
      ensures JoinParts(let, exprs, matches) == Parts(table, ons)
    {
      let, exprs, matches := [], [], [];
      var i := 0;
      while i < |ons|
        invariant 0 <= i <= |ons|
        invariant JoinParts(let, exprs, matches) == Parts(table, ons[..i])
      {
        var o := ons[i];
        ghost var before := JoinParts(let, exprs, matches);
        var (op, v) := Arguments(o.operator, o.value);
        if IsPivotReference(table, v) {
          var key := PivotPath(v.s);
          let := Put(let, "pivot_" + key, "$" + key);
          exprs := exprs + [ExprCondition("$" + op, "$" + PrepareKey(o.field), "$$pivot_" + key)];
        } else {
          matches := matches + [Condition(o.field, op, v)];
        }
        assert JoinParts(let, exprs, matches) == OnStep(table, before, o);
        assert ons[..i + 1][..i] == ons[..i];
        assert Parts(table, ons[..i + 1]) == OnStep(table, Parts(table, ons[..i]), o);
        i := i + 1;
      }
      assert ons[..|ons|] == ons;
    }

    /** `join(from, query, alias)`: the query defaults to
        `on(makeTableId(from), "<from>.id")` and the alias to `from`. */
    method JoinTable(from: string, query: Option<seq<On>>, alias: Option<string>, makeTableId: string -> string)
      modifies this
      ensures pipeline == old(pipeline) +
        [LookupStage(table, from,
                     if query.Some? then query.value else [On(makeTableId(from), Str(from + ".id"), Undefined)],
                     if alias.Some? then alias.value else from)]
      ensures table == old(table) && filters == old(filters) && mappers == old(mappers)
    {
      var ons := if query.Some? then query.value else [On(makeTableId(from), Str(from + ".id"), Undefined)];
      var stage := BuildLookup(from, ons, if alias.Some? then alias.value else from);
      Pipeline([stage]);
    }

    /** The rows a cursor yields for the raw documents of the store. */
    function Rows(raw: seq<Value>): (rows: seq<Value>)
      reads this
      ensures |rows| == |raw|
      ensures forall i :: 0 <= i < |raw| ==> rows[i] == ApplyMappers(mappers, raw[i])
    {
      var ms := mappers;
      seq(|raw|, i requires 0 <= i < |raw| => ApplyMappers(ms, raw[i]))
    }

    /** `get(fields)`: the command sent, and the rows it resolves with. */
    method Get(fields: Option<seq<string>>, raw: seq<Value>) returns (command: Command, rows: seq<Value>)
      modifies this
      ensures pipeline == old(pipeline) + ProjectStages(fields)
      ensures command == Aggregate(Aggregation(filters, pipeline))
      ensures rows == Rows(raw)
      ensures table == old(table) && filters == old(filters) && mappers == old(mappers)
    {
      Pipeline(ProjectStages(fields));
      command := Aggregate(Aggregation(filters, pipeline));
      rows := Rows(raw);
    }

    /** `first(fields)`: `$limit: 1` first, then the projection; the first
        row, `undefined` when there is none. */
    method First(fields: Option<seq<string>>, raw: seq<Value>) returns (command: Command, row: Value)
      modifies this
      ensures pipeline == old(pipeline) + [Limit(1)] + ProjectStages(fields)
      ensures command == Aggregate(Aggregation(filters, pipeline))
      ensures raw == [] ==> row == Undefined
      ensures raw != [] ==> row == ApplyMappers(mappers, raw[0])
      ensures table == old(table) && filters == old(filters) && mappers == old(mappers)
    {
      LimitRows(1);
      Pipeline(ProjectStages(fields));
      command := Aggregate(Aggregation(filters, pipeline));
      var rows := Rows(raw);
      row := if rows == [] then Undefined else rows[0];
    }

    /** `max`/`min`/`avg(field)`: a `$group` stage, then the accumulated
        field of the first row. */
    method Accumulate(a: Accumulator, field: string, raw: seq<Value>) returns (command: Command, result: Result<Value, string>)
      modifies this
      ensures pipeline == old(pipeline) + [GroupStage(a, field)]
      ensures command == Aggregate(Aggregation(filters, pipeline))
      ensures result == GroupResult(a, Rows(raw))
      ensures table == old(table) && filters == old(filters) && mappers == old(mappers)
    {
      Pipeline([GroupStage(a, field)]);
      command := Aggregate(Aggregation(filters, pipeline));
      result := GroupResult(a, Rows(raw));
    }

    /** `count()`: only the filter, whatever stages were appended. */
    method Count() returns (command: Command)
      ensures command.CountDocuments? && command.filter == DriverView(filters)
      ensures command.filter.and != Some([])
    {
      command := CountDocuments(DriverView(filters));
    }

    /** `exists()`: the count is not 0. */
    method Exists(counted: int) returns (command: Command, found: bool)
      ensures command == CountDocuments(DriverView(filters))
      ensures found <==> counted != 0
    {
      command := Count();
      found := counted != 0;
    }

    method Insert(item: Value) returns (command: Command)
      ensures command == InsertCommand(item)
    {
      var stored := PrepareToStore(item);
      if stored.Arr? {
        command := InsertMany(stored.items);
      } else {
        command := InsertOne(stored);
      }
    }

    /** `insertGetId(item)`: one document, whatever the item. */
    method InsertGetId(item: Value) returns (command: Command)
      ensures command == InsertOne(PrepareToStore(item))
      ensures !item.Arr? ==> command == InsertCommand(item)
    {
      command := InsertOne(PrepareToStore(item));
    }

    /** `update(item)`: `$set` the stored form of the item on every
        matching document. */
    method Update(item: Value) returns (command: Command)
      ensures command == UpdateMany(DriverView(filters), Single("$set", PrepareToStore(item)))
      ensures NoKeyDeep(Member(command.update, "$set"), "id")
    {
      StoreLeavesNoId(item);
      command := UpdateMany(DriverView(filters), Single("$set", PrepareToStore(item)));
    }

    /** `increment(field, count)`: the field is used as given. */
    method Increment(field: string, count: Value) returns (command: Command)
      ensures command == UpdateMany(DriverView(filters), Single("$inc", Single(field, IncrementAmount(count))))
    {
      command := UpdateMany(DriverView(filters), Single("$inc", Single(field, IncrementAmount(count))));
    }

    method Delete() returns (command: Command)
      ensures command == DeleteMany(DriverView(filters))
    {
      command := DeleteMany(DriverView(filters));
    }
  }

  /** With only the driver's own mapper, the rows `get` yields are the read
      rewriting of the stored documents, with no `_id` key at any level. */
  lemma ReadRowHasNoUnderscoreId(row: Value)
    ensures ApplyMappers([ReadDocument], row) == PrepareToRead(row)
    ensures NoKeyDeep(ApplyMappers([ReadDocument], row), "_id")
  {
    ReadLeavesNoUnderscoreId(row);
  }
}
