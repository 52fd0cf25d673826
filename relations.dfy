/** Relations between models: their key defaults and how `load` and
    `loadCount` rewrite a query into nested joins. The query is a list of
    the operations made on it (`Op`); a join carries the operations of its
    own sub-query. */
module Relations {
  import opened Wrappers
  import opened RelationPaths
  import Json
  import MongoIds
  import MongoDriver

  /** Name helpers from the library's utilities, as given functions. */
  datatype Naming = Naming(
    tableId: string -> string,
    collectionId: string -> string,
    morphType: string -> string)

  datatype Kind = HasMany | EmbedMany | HasOne | MorphOne | MorphMany

  predicate IsMorph(k: Kind)
  {
    k == MorphOne || k == MorphMany
  }

  /** A relation object. `owner`/`ownerClass` are the table and the class
      name of the model it was created on, `target` the class name of the
      related model; `filter` names the declared filter function and
      `morphType` is the `type` of the morph relations. */
  datatype Relation = Relation(
    kind: Kind,
    owner: string,
    ownerClass: string,
    target: string,
    localKey: string,
    foreignKey: string,
    morphType: string,
    filter: string,
    alias: string)

  /** What `load` needs of a model class: its name, its table, its
      soft-delete setting and the relations it declares. */
  datatype ModelInfo = ModelInfo(
    name: string,
    table: string,
    softDelete: bool,
    deletedAt: string,
    relations: map<string, Relation>)

  /** The model classes by name. */
  type Registry = map<string, ModelInfo>

  /** Every relation a class declares was created on that class and points
      to a known class. */
  predicate Closed(reg: Registry)
  {
    forall m, k :: m in reg && k in reg[m].relations ==>
      reg[m].relations[k].target in reg &&
      reg[m].relations[k].owner == reg[m].table &&
      reg[m].relations[k].ownerClass == reg[m].name
  }

  /** Every declared relation is of a kind whose `load` is modelled. */
  predicate Loadable(reg: Registry)
  {
    forall m, k :: m in reg && k in reg[m].relations ==> !IsMorph(reg[m].relations[k].kind)
  }

  /** Every declared relation is of a kind whose `loadCount` is modelled. */
  predicate Countable(reg: Registry)
  {
    forall m, k :: m in reg && k in reg[m].relations ==>
      reg[m].relations[k].kind == HasMany || reg[m].relations[k].kind == EmbedMany
  }

  // ---------------------------------------------------------------- defaults

  /** The `localKey` a constructor uses when none is given. */
  function DefaultLocalKey(kind: Kind, n: Naming, target: string): string
  {
    match kind
    case HasMany => "id"
    case EmbedMany => n.collectionId(target) + "s"
    case HasOne => n.tableId(target)
    case MorphOne => "id"
    case MorphMany => "id"
  }

  /** The `foreignKey` a constructor uses when none is given. */
  function DefaultForeignKey(kind: Kind, n: Naming, owner: string, target: string): string
  {
    match kind
    case HasMany => n.collectionId(owner)
    case EmbedMany => "id"
    case HasOne => "id"
    case MorphOne => n.morphType(target) + "_id"
    case MorphMany => n.morphType(target) + "_id"
  }

  /** A relation constructor: an absent argument takes its default. */
  function Make(kind: Kind, n: Naming, owner: ModelInfo, target: ModelInfo,
                localKey: Option<string>, foreignKey: Option<string>, morphType: Option<string>,
                filter: string, alias: string): (r: Relation)
    ensures r.kind == kind && r.owner == owner.table && r.ownerClass == owner.name && r.target == target.name
    ensures localKey.Some? ==> r.localKey == localKey.value
    ensures foreignKey.Some? ==> r.foreignKey == foreignKey.value
    ensures morphType.Some? ==> r.morphType == morphType.value
  {
    Relation(kind, owner.table, owner.name, target.name,
             if localKey.Some? then localKey.value else DefaultLocalKey(kind, n, target.table),
             if foreignKey.Some? then foreignKey.value else DefaultForeignKey(kind, n, owner.table, target.table),
             if morphType.Some? then morphType.value else n.morphType(target.table),
             filter, alias)
  }

  /** `morphOne`/`morphMany` on a model: the factory passes `undefined` for
      the foreign key. */
  function MorphFactory(kind: Kind, n: Naming, owner: ModelInfo, target: ModelInfo,
                        localKey: Option<string>, morphType: Option<string>,
                        filter: string, alias: string): (r: Relation)
    requires IsMorph(kind)
    ensures r.kind == kind
  {
    Make(kind, n, owner, target, localKey, None, morphType, filter, alias)
  }

  /** The defaults of each kind, stated against the model names. */
  lemma Defaults(n: Naming, owner: ModelInfo, target: ModelInfo, filter: string, alias: string)
    ensures var r := Make(HasMany, n, owner, target, None, None, None, filter, alias);
      r.localKey == "id" && r.foreignKey == n.collectionId(owner.table)
    ensures var r := Make(EmbedMany, n, owner, target, None, None, None, filter, alias);
      r.localKey == n.collectionId(target.table) + "s" && r.foreignKey == "id"
    ensures var r := Make(HasOne, n, owner, target, None, None, None, filter, alias);
      r.localKey == n.tableId(target.table) && r.foreignKey == "id"
    ensures forall k :: IsMorph(k) ==>
      var r := Make(k, n, owner, target, None, None, None, filter, alias);
      r.localKey == "id" && r.morphType == n.morphType(target.table) &&
      r.foreignKey == n.morphType(target.table) + "_id"
  {
  }

  /** Whatever `type` a morph relation is given, its foreign key is the
      default one, derived from the target and not from that `type`. */
  lemma MorphForeignKeyIgnoresType(kind: Kind, n: Naming, owner: ModelInfo, target: ModelInfo,
                                   localKey: Option<string>, morphType: string, filter: string, alias: string)
    requires IsMorph(kind)
    ensures MorphFactory(kind, n, owner, target, localKey, Some(morphType), filter, alias).foreignKey ==
            n.morphType(target.table) + "_id"
    ensures MorphFactory(kind, n, owner, target, localKey, Some(morphType), filter, alias).morphType == morphType
  {
  }

  // ------------------------------------------------------------- query ops

  /** One operation on a (sub-)query. Column references such as
      `"users.id"` are plain strings. */
  datatype Op =
    | Where(field: string, value: string)
    | WhereIn(field: string, value: string)
    | WhereNull(field: string)
    /** A filter function applied to the query, named. */
    | Apply(filter: string)
    /** `.aggregate({ $project: { relation: "$$ROOT" } })` */
    | ProjectRoot
    | Join(table: string, query: seq<Op>, alias: string)
    /** `{ $unwind: { path, preserveNullAndEmptyArrays } }` */
    | Unwind(path: string, preserveNullAndEmptyArrays: bool)

  /** A positional argument after `(query, relations)`: absent, a boolean,
      or a filter function. */
  datatype Arg = Missing | Flag(b: bool) | Fn(name: string)

  predicate ArgTruthy(a: Arg)
  {
    match a
    case Missing => false
    case Flag(b) => b
    case Fn(_) => true
  }

  function Slot(args: seq<Arg>, i: nat): (a: Arg)
    ensures i >= |args| ==> a == Missing
  {
    if i < |args| then args[i] else Missing
  }

  /** `if (filter) filters.push(filter)` and the later `filter(prev)`: a
      function is applied, a falsy value skipped, and `true` cannot be
      called. */
  function CallerFilter(a: Arg): (r: Result<seq<Op>, string>)
    ensures r.Success? <==> !(a.Flag? && a.b)
    ensures r.Success? ==> r.value == if a.Fn? then [Apply(a.name)] else []
    ensures r.Failure? ==> r.error == "filter is not a function"
  {
    match a
    case Missing => Success([])
    case Flag(b) => if b then Failure("filter is not a function") else Success([])
    case Fn(name) => Success([Apply(name)])
  }

  /** The soft-delete exclusion and then the declared filter. */
  function DeclaredFilters(target: ModelInfo, r: Relation, withTrashed: Arg): (ops: seq<Op>)
    ensures |ops| >= 1 && ops[|ops| - 1] == Apply(r.filter)
    ensures |ops| == 2 <==> target.softDelete && !ArgTruthy(withTrashed)
    ensures |ops| == 2 ==> ops[0] == WhereNull(target.deletedAt)
  {
    (if target.softDelete && !ArgTruthy(withTrashed) then [WhereNull(target.deletedAt)] else []) + [Apply(r.filter)]
  }

  // ------------------------------------------------------------------ load

  /** The sub-query of a `hasMany`/`embedMany` join before any child is
      loaded: the join predicate, the filters in order, then the caller's
      filter. `hasMany` reads `(withTrashed, filter)` from the arguments,
      `embedMany` only `(filter)`. */
  function LoadStart(target: ModelInfo, r: Relation, args: seq<Arg>): (res: Result<seq<Op>, string>)
    requires r.kind == HasMany || r.kind == EmbedMany
  {
    var column := r.owner + "." + r.localKey;
    if r.kind == HasMany then
      match CallerFilter(Slot(args, 1))
      case Failure(e) => Failure(e)
      case Success(caller) => Success([Where(r.foreignKey, column)] + DeclaredFilters(target, r, Slot(args, 0)) + caller)
    else
      match CallerFilter(Slot(args, 0))
      case Failure(e) => Failure(e)
      case Success(caller) => Success([WhereIn(r.foreignKey, column), Apply(r.filter)] + caller)
  }

  /** The arguments `load` passes on to each child's `load`. */
  function ChildArgs(r: Relation, args: seq<Arg>): seq<Arg>
  {
    if r.kind == HasMany then [Slot(args, 0)] else []
  }

  /** `relation.load(query, node.relations, ...args)` for the relation `r`
      and the node of the relation tree that names it. The MongoDB `hasOne`
      takes only the query. */
  function Load(reg: Registry, r: Relation, query: seq<Op>, node: RelationNode, args: seq<Arg>): (res: Result<seq<Op>, string>)
    requires Closed(reg) && Loadable(reg) && r.target in reg && !IsMorph(r.kind)
    ensures res.Success? ==> |query| < |res.value| && res.value[..|query|] == query
    decreases node, 1
  {
    var target := reg[r.target];
    if r.kind == HasOne then
      Success(query + [Join(target.table, [Where(r.foreignKey, r.owner + "." + r.localKey)], r.alias),
                       Unwind("$" + r.alias, true)])
    else
      match LoadStart(target, r, args)
      case Failure(e) => Failure(e)
      case Success(start) =>
        match LoadChildren(reg, r.target, start, node, 0, ChildArgs(r, args))
        case Failure(e) => Failure(e)
        case Success(sub) => Success(query + [Join(target.table, sub, r.alias)])
  }

  /** `relations.reduce(...)`: each child must be declared by the target;
      its loader is applied to the query built so far. */
  function LoadChildren(reg: Registry, model: string, prev: seq<Op>, parent: RelationNode, i: nat, args: seq<Arg>)
    : (res: Result<seq<Op>, string>)
    requires Closed(reg) && Loadable(reg) && model in reg
    requires i <= |parent.relations|
    ensures res.Success? ==> |prev| <= |res.value| && res.value[..|prev|] == prev
    ensures res.Success? ==> forall j :: i <= j < |parent.relations| ==> parent.relations[j].name in reg[model].relations
    ensures i < |parent.relations| && parent.relations[i].name !in reg[model].relations ==>
      res == Failure(UnknownRelation(parent.relations[i].name, reg[model].name))
    decreases parent, 0, |parent.relations| - i
  {
    if i == |parent.relations| then Success(prev)
    else
      var cur := parent.relations[i];
      if cur.name !in reg[model].relations then Failure(UnknownRelation(cur.name, reg[model].name))
      else
        var child := reg[model].relations[cur.name];
        match Load(reg, child, prev, cur, args)
        case Failure(e) => Failure(e)
        case Success(next) =>
          var rest := LoadChildren(reg, model, next, parent, i + 1, args);
          assert rest.Success? ==> rest.value[..|prev|] == next[..|prev|];
          rest
  }

  // ------------------------------------------------------------- loadCount

  /** `relation.loadCount(query, segments, ...args)`: the first segment is
      consumed; the count join always has the alias `"relation"`. */
  function LoadCount(reg: Registry, r: Relation, query: seq<Op>, segments: seq<string>, args: seq<Arg>)
    : (res: Result<seq<Op>, string>)
    requires Closed(reg) && Countable(reg) && r.target in reg
    requires r.kind == HasMany || r.kind == EmbedMany
    ensures res.Success? ==> |res.value| == |query| + 1 && res.value[..|query|] == query
    ensures res.Success? ==> res.value[|query|].Join? && res.value[|query|].alias == "relation" &&
                             res.value[|query|].table == reg[r.target].table
    decreases |segments|
  {
    var target := reg[r.target];
    var sub := if segments == [] then "" else segments[0];
    var rest := if segments == [] then [] else segments[1..];
    var column := r.owner + ".relation." + r.localKey;
    var withTrashed := if r.kind == HasMany then Slot(args, 0) else Missing;
    var filter := if r.kind == HasMany then Slot(args, 1) else Slot(args, 0);
    var filters := if r.kind == HasMany then DeclaredFilters(target, r, withTrashed) else [Apply(r.filter)];
    var test := if r.kind == EmbedMany then WhereIn(r.foreignKey, column) else Where(r.foreignKey, column);
    if sub != "" then
      if sub !in target.relations then Failure(UnknownRelation(sub, target.name))
      else
        var child := target.relations[sub];
        var childArgs := if r.kind == HasMany then [withTrashed, filter] else [filter];
        match LoadCount(reg, child, [test, ProjectRoot] + filters, rest, childArgs)
        case Failure(e) => Failure(e)
        case Success(inner) => Success(query + [Join(target.table, inner, "relation")])
    else
      match CallerFilter(filter)
      case Failure(e) => Failure(e)
      case Success(caller) => Success(query + [Join(target.table, [test] + filters + caller, "relation")])
  }

  // ---------------------------------------------------- morph discriminator

  /** `MorphBase._query`: the base query and the owner's class name as the
      `<type>_type` discriminator. */
  function MorphQuery(base: seq<Op>, r: Relation): (q: seq<Op>)
    requires IsMorph(r.kind)
    ensures |q| == |base| + 1 && q[..|base|] == base
  {
    base + [Where(r.morphType + "_type", r.ownerClass)]
  }

  // ---------------------------------------------------------------- lemmas

  /** `hasMany` joins on equality with the owner's column, then applies the
      soft-delete exclusion (unless trashed rows are wanted), the declared
      filter and the caller's filter, in that order. */
  lemma HasManyFilterOrder(target: ModelInfo, r: Relation, args: seq<Arg>)
    requires r.kind == HasMany
    ensures LoadStart(target, r, args).Success? <==> Slot(args, 1) != Flag(true)
    ensures var trash := target.softDelete && !ArgTruthy(Slot(args, 0));
      var caller := Slot(args, 1);
      LoadStart(target, r, args).Success? ==>
        LoadStart(target, r, args).value ==
          [Where(r.foreignKey, r.owner + "." + r.localKey)] +
          (if trash then [WhereNull(target.deletedAt)] else []) + [Apply(r.filter)] +
          (if caller.Fn? then [Apply(caller.name)] else [])
  {
  }

  /** `embedMany` joins on membership in the owner's array, then applies the
      declared and the caller's filter; it never excludes trashed rows. */
  lemma EmbedManyFilterOrder(target: ModelInfo, r: Relation, args: seq<Arg>)
    requires r.kind == EmbedMany
    ensures LoadStart(target, r, args).Success? <==> Slot(args, 0) != Flag(true)
    ensures var caller := Slot(args, 0);
      LoadStart(target, r, args).Success? ==>
        LoadStart(target, r, args).value ==
          [WhereIn(r.foreignKey, r.owner + "." + r.localKey), Apply(r.filter)] +
          (if caller.Fn? then [Apply(caller.name)] else [])
    ensures LoadStart(target, r, args).Success? ==>
      forall j :: 0 <= j < |LoadStart(target, r, args).value| ==> !LoadStart(target, r, args).value[j].WhereNull?
  {
  }

  /** A successful `load` adds one join on the target's table under the
      relation's alias; its sub-query starts with the predicate and the
      filters, and the children only add to it. */
  lemma {:induction false} LoadJoin(reg: Registry, r: Relation, query: seq<Op>, node: RelationNode, args: seq<Arg>)
    requires Closed(reg) && Loadable(reg) && r.target in reg
    requires r.kind == HasMany || r.kind == EmbedMany
    ensures var res := Load(reg, r, query, node, args);
      res.Success? ==>
        LoadStart(reg[r.target], r, args).Success? &&
        |res.value| == |query| + 1 && res.value[|query|].Join? &&
        res.value[|query|].table == reg[r.target].table && res.value[|query|].alias == r.alias &&
        var start := LoadStart(reg[r.target], r, args).value;
        |start| <= |res.value[|query|].query| && res.value[|query|].query[..|start|] == start
    ensures Load(reg, r, query, node, args).Success? ==>
      forall j :: 0 <= j < |node.relations| ==> node.relations[j].name in reg[r.target].relations
  {
    var res := Load(reg, r, query, node, args);
    if res.Success? {
      var target := reg[r.target];
      var start := LoadStart(target, r, args).value;
      var sub := LoadChildren(reg, r.target, start, node, 0, ChildArgs(r, args));
      assert res.value == query + [Join(target.table, sub.value, r.alias)];
    }
  }

  /** A child the target does not declare makes `load` throw
      `Relation '<child>' does not exist on '<Target>' Model`. */
  lemma UndeclaredChildFails(reg: Registry, r: Relation, query: seq<Op>, node: RelationNode, args: seq<Arg>)
    requires Closed(reg) && Loadable(reg) && r.target in reg
    requires r.kind == HasMany || r.kind == EmbedMany
    requires LoadStart(reg[r.target], r, args).Success?
    requires node.relations != [] && node.relations[0].name !in reg[r.target].relations
    ensures Load(reg, r, query, node, args) == Failure(UnknownRelation(node.relations[0].name, reg[r.target].name))
  {
  }

  /** The MongoDB `hasOne` joins on equality only, unwinds the alias keeping
      owners without a match, and ignores child nodes and extra arguments. */
  lemma HasOneLoad(reg: Registry, r: Relation, query: seq<Op>, node: RelationNode, args: seq<Arg>)
    requires Closed(reg) && Loadable(reg) && r.target in reg && r.kind == HasOne
    ensures Load(reg, r, query, node, args) == Load(reg, r, query, RelationNode(node.name, []), [])
    ensures var res := Load(reg, r, query, node, args);
      res.Success? && |res.value| == |query| + 2 &&
      res.value[|query|] == Join(reg[r.target].table, [Where(r.foreignKey, r.owner + "." + r.localKey)], r.alias) &&
      res.value[|query| + 1] == Unwind("$" + r.alias, true)
  {
  }

  /** The `hasOne` join read through the driver's `join`, with the
      sub-query's `where` taken as `on`: the owner's column is a pivot, so
      the stage compares the foreign key with a `let` variable. */
  lemma HasOneLookupStage(reg: Registry, r: Relation, query: seq<Op>, node: RelationNode, args: seq<Arg>)
    requires Closed(reg) && Loadable(reg) && r.target in reg && r.kind == HasOne
    requires '.' !in r.owner && '.' !in r.localKey
    requires r.localKey != [] && !MongoDriver.LineTerminator(r.localKey[0])
    ensures var j := Load(reg, r, query, node, args).value[|query|];
      var key := MongoIds.PrepareKey(r.localKey);
      j.Join? && |j.query| == 1 && j.query[0].Where? &&
      MongoDriver.LookupStage(r.owner, j.table,
        [MongoDriver.On(j.query[0].field, Json.Str(j.query[0].value), Json.Undefined)], j.alias) ==
      MongoDriver.Lookup(r.alias, reg[r.target].table, [("pivot_" + key, "$" + key)],
        [MongoDriver.MatchExpr([MongoDriver.ExprCondition("$eq", "$" + MongoIds.PrepareKey(r.foreignKey), "$$pivot_" + key)])])
  {
    HasOneLoad(reg, r, query, node, args);
    MongoDriver.RelationJoin(r.owner, reg[r.target].table, r.foreignKey, r.localKey, r.alias);
  }

  /** `hasMany.load` hands its `withTrashed` to each child positionally; an
      `embedMany` child reads it as its filter, so `true` makes the load
      throw and `false` is skipped. */
  lemma TrashFlagLandsInEmbedFilter(reg: Registry, r: Relation, query: seq<Op>, node: RelationNode)
    requires Closed(reg) && Loadable(reg) && r.target in reg && r.kind == HasMany
    requires |node.relations| == 1 && node.relations[0].name in reg[r.target].relations
    requires reg[r.target].relations[node.relations[0].name].kind == EmbedMany
    ensures Load(reg, r, query, node, [Flag(true)]) == Failure("filter is not a function")
    ensures node.relations[0].relations == [] ==> Load(reg, r, query, node, [Flag(false)]).Success?
  {
    var target := reg[r.target];
    var c := node.relations[0];
    var child := target.relations[c.name];
    assert child.target in reg;
    var start := LoadStart(target, r, [Flag(true)]).value;
    assert Load(reg, child, start, c, [Flag(true)]) == Failure("filter is not a function");
    if c.relations == [] {
      var start' := LoadStart(target, r, [Flag(false)]).value;
      var inner := LoadStart(reg[child.target], child, [Flag(false)]).value;
      assert LoadChildren(reg, child.target, inner, c, 0, []) == Success(inner);
      var next := start' + [Join(reg[child.target].table, inner, child.alias)];
      assert Load(reg, child, start', c, [Flag(false)]) == Success(next);
      assert LoadChildren(reg, r.target, next, node, 1, [Flag(false)]) == Success(next);
    }
  }

  /** Under `embedMany` a `hasMany` child gets no `withTrashed`: when its
      target soft-deletes, its join always excludes trashed rows. */
  lemma EmbedChildExcludesTrashed(reg: Registry, r: Relation, query: seq<Op>, node: RelationNode, args: seq<Arg>)
    requires Closed(reg) && Loadable(reg) && r.target in reg && r.kind == EmbedMany
    requires |node.relations| == 1 && node.relations[0].name in reg[r.target].relations && node.relations[0].relations == []
    requires reg[r.target].relations[node.relations[0].name].kind == HasMany
    requires reg[reg[r.target].relations[node.relations[0].name].target].softDelete
    requires LoadStart(reg[r.target], r, args).Success?
    ensures var child := reg[r.target].relations[node.relations[0].name];
      var childTarget := reg[child.target];
      var start := LoadStart(reg[r.target], r, args).value;
      Load(reg, r, query, node, args) ==
        Success(query + [Join(reg[r.target].table,
          start + [Join(childTarget.table,
                        [Where(child.foreignKey, child.owner + "." + child.localKey),
                         WhereNull(childTarget.deletedAt), Apply(child.filter)], child.alias)],
          r.alias)])
  {
    var target := reg[r.target];
    var c := node.relations[0];
    var child := target.relations[c.name];
    assert child.target in reg;
    var childTarget := reg[child.target];
    var start := LoadStart(target, r, args).value;
    var inner := [Where(child.foreignKey, child.owner + "." + child.localKey),
                  WhereNull(childTarget.deletedAt), Apply(child.filter)];
    assert DeclaredFilters(childTarget, child, Missing) == [WhereNull(childTarget.deletedAt), Apply(child.filter)];
    assert CallerFilter(Slot([], 1)) == Success([]);
    assert [Where(child.foreignKey, child.owner + "." + child.localKey)] +
           [WhereNull(childTarget.deletedAt), Apply(child.filter)] + [] == inner;
    assert LoadStart(childTarget, child, []) == Success(inner);
    assert LoadChildren(reg, child.target, inner, c, 0, []) == Success(inner);
    var j := Join(childTarget.table, inner, child.alias);
    assert Load(reg, child, start, c, []) == Success(start + [j]);
    assert LoadChildren(reg, r.target, start + [j], node, 1, []) == Success(start + [j]);
  }

  /** The last segment of `loadCount` joins on `"<Owner>.relation.<localKey>"`
      under the alias `"relation"`, with the caller's filter after the
      relation's own filters. */
  lemma CountTerminal(reg: Registry, r: Relation, query: seq<Op>, args: seq<Arg>)
    requires Closed(reg) && Countable(reg) && r.target in reg
    requires r.kind == HasMany || r.kind == EmbedMany
    ensures var target := reg[r.target];
      var column := r.owner + ".relation." + r.localKey;
      var filter := if r.kind == HasMany then Slot(args, 1) else Slot(args, 0);
      var own := if r.kind == HasMany then [Where(r.foreignKey, column)] + DeclaredFilters(target, r, Slot(args, 0))
                 else [WhereIn(r.foreignKey, column), Apply(r.filter)];
      filter.Fn? ==>
        LoadCount(reg, r, query, [], args) ==
        Success(query + [Join(target.table, own + [Apply(filter.name)], "relation")])
  {
    var target := reg[r.target];
    var column := r.owner + ".relation." + r.localKey;
    if r.kind == EmbedMany && Slot(args, 0).Fn? {
      var f := Slot(args, 0);
      assert [WhereIn(r.foreignKey, column)] + [Apply(r.filter)] + [Apply(f.name)] ==
             [WhereIn(r.foreignKey, column), Apply(r.filter)] + [Apply(f.name)];
    }
  }

  /** `if (subRelation)`: an empty segment ends the descent like no segment. */
  lemma EmptySegmentIsTerminal(reg: Registry, r: Relation, query: seq<Op>, rest: seq<string>, args: seq<Arg>)
    requires Closed(reg) && Countable(reg) && r.target in reg
    requires r.kind == HasMany || r.kind == EmbedMany
    ensures LoadCount(reg, r, query, [""] + rest, args) == LoadCount(reg, r, query, [], args)
  {
  }

  /** An undeclared segment makes `loadCount` throw the unknown-relation
      error. */
  lemma CountUndeclaredSegment(reg: Registry, r: Relation, query: seq<Op>, segments: seq<string>, args: seq<Arg>)
    requires Closed(reg) && Countable(reg) && r.target in reg
    requires r.kind == HasMany || r.kind == EmbedMany
    requires segments != [] && segments[0] != "" && segments[0] !in reg[r.target].relations
    ensures LoadCount(reg, r, query, segments, args) == Failure(UnknownRelation(segments[0], reg[r.target].name))
  {
  }

  /** Two `hasMany` levels: the outer join wraps its rows as `relation`
      with `$$ROOT` and applies only its own filters; the caller's filter
      reaches the innermost join. */
  lemma NestedCount(reg: Registry, r: Relation, query: seq<Op>, segment: string, filter: string)
    requires Closed(reg) && Countable(reg) && r.target in reg && r.kind == HasMany
    requires segment != "" && segment in reg[r.target].relations
    requires reg[r.target].relations[segment].kind == HasMany
    ensures var target := reg[r.target];
      var child := target.relations[segment];
      var childTarget := reg[child.target];
      LoadCount(reg, r, query, [segment], [Missing, Fn(filter)]) ==
      Success(query + [Join(target.table,
        [Where(r.foreignKey, r.owner + ".relation." + r.localKey), ProjectRoot] +
        DeclaredFilters(target, r, Missing) +
        [Join(childTarget.table,
              [Where(child.foreignKey, child.owner + ".relation." + child.localKey)] +
              DeclaredFilters(childTarget, child, Missing) + [Apply(filter)],
              "relation")],
        "relation")])
  {
    var child := reg[r.target].relations[segment];
    assert child.target in reg;
    assert [segment][1..] == [];
  }

  /** Through an `embedMany` segment the arguments shift: the caller's
      `withTrashed` becomes the `embedMany`'s filter, and the caller's
      filter is lost. */
  lemma CountThroughEmbedShiftsArguments(reg: Registry, r: Relation, query: seq<Op>, segment: string, filter: string)
    requires Closed(reg) && Countable(reg) && r.target in reg && r.kind == HasMany
    requires segment != "" && segment in reg[r.target].relations
    requires reg[r.target].relations[segment].kind == EmbedMany
    ensures LoadCount(reg, r, query, [segment], [Flag(true), Fn(filter)]) == Failure("filter is not a function")
    ensures var target := reg[r.target];
      var child := target.relations[segment];
      var childTarget := reg[child.target];
      LoadCount(reg, r, query, [segment], [Missing, Fn(filter)]) ==
      Success(query + [Join(target.table,
        [Where(r.foreignKey, r.owner + ".relation." + r.localKey), ProjectRoot] +
        DeclaredFilters(target, r, Missing) +
        [Join(childTarget.table,
              [WhereIn(child.foreignKey, child.owner + ".relation." + child.localKey), Apply(child.filter)],
              "relation")],
        "relation")])
  {
    var child := reg[r.target].relations[segment];
    assert child.target in reg;
    assert [segment][1..] == [];
    var column := child.owner + ".relation." + child.localKey;
    assert [WhereIn(child.foreignKey, column)] + [Apply(child.filter)] + [] ==
           [WhereIn(child.foreignKey, column), Apply(child.filter)];
  }

  /** With the default `type`, a morph relation's discriminator and its
      foreign key share the target's morph type. */
  lemma MorphDiscriminator(kind: Kind, n: Naming, owner: ModelInfo, target: ModelInfo,
                           localKey: Option<string>, base: seq<Op>, filter: string, alias: string)
    requires IsMorph(kind)
    ensures var r := MorphFactory(kind, n, owner, target, localKey, None, filter, alias);
      MorphQuery(base, r) == base + [Where(n.morphType(target.table) + "_type", owner.name)] &&
      r.foreignKey == n.morphType(target.table) + "_id"
  {
  }
}
