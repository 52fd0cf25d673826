/** The MongoDB filter tree kept by the `Filter` builder and by the
    driver: `{ $and: [...] }` or `{ $or: [...] }`, where a push under the
    other combinator nests the whole previous tree. */
module Filtering {
  import opened Wrappers
  import opened Json
  import opened MongoIds

  datatype Combinator = And | Or

  /** A child of `$and`/`$or`: a leaf `{ field: { $op: value } }`, or a
      nested filter object. */
  datatype Node =
    | Leaf(field: string, op: string, value: Value)
    | Group(filters: Filters)

  /** The `$and` and `$or` properties of a filter object, each present or
      absent. */
  datatype Filters = Filters(and: Option<seq<Node>>, or: Option<seq<Node>>)

  /** Exactly one of `$and`/`$or` is present. */
  predicate WellFormed(f: Filters)
  {
    f.and.Some? != f.or.Some?
  }

  /** The state a builder can be in: well formed, and an `$or` list is
      never empty because it only ever appears with a pushed child. */
  predicate Valid(f: Filters)
  {
    WellFormed(f) && (f.or.Some? ==> f.or.value != [])
  }

  function Top(f: Filters): Combinator
    requires WellFormed(f)
  {
    if f.and.Some? then And else Or
  }

  function Children(f: Filters): seq<Node>
    requires WellFormed(f)
  {
    if f.and.Some? then f.and.value else f.or.value
  }

  /** A new builder's `{ $and: [] }`. */
  const Empty: Filters := Filters(Some([]), None)

  /** `_push_filter(operator, value)`. */
  function Push(f: Filters, c: Combinator, n: Node): (r: Filters)
    requires WellFormed(f)
    ensures Valid(r) && Top(r) == c
    ensures Top(f) == c ==> Children(r) == Children(f) + [n]
    ensures Top(f) != c ==> Children(r) == [Group(f), n]
  {
    match c
    case And =>
      if f.or.Some? then Filters(Some([Group(f), n]), None)
      else Filters(Some(f.and.value + [n]), f.or)
    case Or =>
      if f.and.Some? then Filters(None, Some([Group(f), n]))
      else Filters(f.and, Some(f.or.value + [n]))
  }

  /** The `filters` getter of `Filter`: an empty `$and` is dropped, or else
      an empty `$or`. */
  function View(f: Filters): (r: Filters)
    ensures WellFormed(f) ==> r.and != Some([]) && r.or != Some([])
    ensures WellFormed(f) ==> (r == Filters(None, None) <==> Children(f) == [])
    ensures WellFormed(f) && Children(f) != [] ==> r == f
  {
    if f.and == Some([]) then Filters(None, f.or)
    else if f.or == Some([]) then Filters(f.and, None)
    else f
  }

  /** The `_filter` getter of the driver: only an empty `$and` is dropped. */
  function DriverView(f: Filters): (r: Filters)
    ensures r.and != Some([])
    ensures f.and != Some([]) ==> r == f
    ensures f.and == Some([]) ==> r.and.None? && r.or == f.or
  {
    if f.and == Some([]) then Filters(None, f.or) else f
  }

  /** On every state a builder can reach, the two getters agree. */
  lemma ViewsAgree(f: Filters)
    requires Valid(f)
    ensures View(f) == DriverView(f)
  {
  }

  /** The leaf `_where`/`_or_where` push: the key and the value are
      prepared for MongoDB first. */
  function Condition(field: string, op: string, value: Value): (n: Node)
    ensures n.Leaf? && n.field == PrepareKey(field) && n.op == "$" + op
    ensures n.value == PrepareValue(PrepareKey(field), value)
  {
    var key := PrepareKey(field);
    Leaf(key, "$" + op, PrepareValue(key, value))
  }

  /** The pattern of `whereLike`: a string becomes a case-insensitive
      `RegExp`, a `RegExp` is kept. */
  function LikePattern(value: Value): (r: Value)
    ensures r.Regex?
    ensures value.Regex? ==> r == value
  {
    if value.Regex? then value else Regex(value, "i")
  }

  /** One public call on a builder. The group forms carry the filter tree
      that the callback built on a fresh `Filter`. */
  datatype Call =
    | Where(field: string, operator: Value, value: Value)
    | OrWhere(field: string, operator: Value, value: Value)
    | WhereGroup(sub: Filters)
    | OrWhereGroup(sub: Filters)
    | WhereLike(field: string, pattern: Value)
    | WhereNotLike(field: string, pattern: Value)
    | WhereIn(field: string, values: seq<Value>)
    | WhereNotIn(field: string, values: seq<Value>)
    | WhereBetween(field: string, start: Value, end: Value)
    | WhereNotBetween(field: string, start: Value, end: Value)
    | WhereNull(field: string)
    | WhereNotNull(field: string)

  /** The forms the driver offers as well (the group forms are `Filter`'s). */
  predicate DriverCall(call: Call)
  {
    !call.WhereGroup? && !call.OrWhereGroup?
  }

  /** The tree after one call. */
  function Apply(f: Filters, call: Call): (r: Filters)
    requires WellFormed(f)
    ensures Valid(r)
  {
    match call
    case Where(field, operator, value) =>
      var (op, v) := Arguments(operator, value);
      Push(f, And, Condition(field, op, v))
    case OrWhere(field, operator, value) =>
      var (op, v) := Arguments(operator, value);
      Push(f, Or, Condition(field, op, v))
    case WhereGroup(sub) => Push(f, And, Group(View(sub)))
    case OrWhereGroup(sub) => Push(f, Or, Group(View(sub)))
    case WhereLike(field, pattern) => Push(f, And, Condition(field, "regex", LikePattern(pattern)))
    case WhereNotLike(field, pattern) => Push(f, And, Condition(field, "not", LikePattern(pattern)))
    case WhereIn(field, values) => Push(f, And, Condition(field, "in", Arr(values)))
    case WhereNotIn(field, values) => Push(f, And, Condition(field, "nin", Arr(values)))
    case WhereBetween(field, start, end) =>
      Push(Push(f, And, Condition(field, "gte", start)), And, Condition(field, "lte", end))
    case WhereNotBetween(field, start, end) =>
      Push(Push(f, And, Condition(field, "lt", start)), Or, Condition(field, "gt", end))
    case WhereNull(field) => Push(f, And, Condition(field, "eq", Null))
    case WhereNotNull(field) => Push(f, And, Condition(field, "ne", Null))
  }

  /** The tree after a sequence of calls. */
  function ApplyAll(f: Filters, calls: seq<Call>): (r: Filters)
    requires WellFormed(f)
    ensures calls != [] ==> Valid(r)
    ensures calls == [] ==> r == f
    decreases |calls|
  {
    if calls == [] then f else ApplyAll(Apply(f, calls[0]), calls[1..])
  }

  /** Whatever the calls, a builder keeps exactly one of `$and`/`$or`. */
  lemma {:induction false} CallsKeepOneCombinator(calls: seq<Call>)
    ensures Valid(ApplyAll(Empty, calls))
  {
  }

  /** The `and` forms append one or two children after the existing ones. */
  predicate AndOnly(call: Call)
  {
    !call.OrWhere? && !call.OrWhereGroup? && !call.WhereNotBetween?
  }

  lemma {:induction false} AndCallsKeepChildren(f: Filters, call: Call)
    requires WellFormed(f) && Top(f) == And && AndOnly(call)
    ensures Top(Apply(f, call)) == And
    ensures Children(f) < Children(Apply(f, call))
  {
    match call {
      case WhereBetween(field, start, end) =>
        var g := Push(f, And, Condition(field, "gte", start));
        assert Children(f) < Children(g);
      case _ =>
    }
  }

  /** `where(fn)` adds the callback's tree as a single child; the parent's
      children before it are untouched. */
  lemma GroupIsOneChild(f: Filters, sub: Filters)
    requires WellFormed(f)
    ensures Top(f) == And ==> Children(Apply(f, WhereGroup(sub))) == Children(f) + [Group(View(sub))]
    ensures Top(f) == Or ==> Children(Apply(f, WhereGroup(sub))) == [Group(f), Group(View(sub))]
    ensures Top(f) == Or ==> Children(Apply(f, OrWhereGroup(sub))) == Children(f) + [Group(View(sub))]
  {
  }

  /** `whereBetween(f, a, b)` is `where(f, ">=", a).where(f, "<=", b)` for
      defined bounds. */
  lemma {:induction false} BetweenIsTwoWheres(f: Filters, field: string, start: Value, end: Value)
    requires WellFormed(f)
    requires start != Undefined && end != Undefined
    ensures Apply(f, WhereBetween(field, start, end)) ==
            ApplyAll(f, [Where(field, Str(">="), start), Where(field, Str("<="), end)])
  {
    var calls := [Where(field, Str(">="), start), Where(field, Str("<="), end)];
    assert calls[1..] == [Where(field, Str("<="), end)];
  }

  /** On a fresh builder, `whereNotBetween` nests the `lt` leaf in an `$and`
      under the `$or`. */
  lemma NotBetweenFresh(field: string, start: Value, end: Value)
    ensures Apply(Empty, WhereNotBetween(field, start, end)) ==
            Filters(None, Some([Group(Filters(Some([Condition(field, "lt", start)]), None)),
                                Condition(field, "gt", end)]))
  {
    var lt := Condition(field, "lt", start);
    assert Empty.and.value + [lt] == [lt];
  }

  /** ... which is not the tree of two `orWhere` calls: those keep the
      empty `$and` of the fresh builder as the first alternative. */
  lemma {:induction false} NotBetweenIsNotTwoOrWheres(field: string, start: Value, end: Value)
    requires start != Undefined && end != Undefined
    ensures Apply(Empty, WhereNotBetween(field, start, end)) !=
            ApplyAll(Empty, [OrWhere(field, Str("<"), start), OrWhere(field, Str(">"), end)])
  {
    var calls := [OrWhere(field, Str("<"), start), OrWhere(field, Str(">"), end)];
    assert calls[1..] == [OrWhere(field, Str(">"), end)];
    var one := Apply(Empty, calls[0]);
    assert Children(one)[0] == Group(Empty);
    var two := ApplyAll(one, calls[1..]);
    assert two == Apply(one, calls[1]);
    assert Children(two)[0] == Group(Empty);
  }

  /** The first `orWhere` on a fresh builder. */
  lemma FirstOrWhere(field: string, operator: Value, value: Value)
    ensures Apply(Empty, OrWhere(field, operator, value)) ==
            Filters(None, Some([Group(Empty), Condition(field, Arguments(operator, value).0, Arguments(operator, value).1)]))
  {
  }

  /** The `Filter` builder handed to `where(fn)` callbacks. */
  class Filter {
    var filters: Filters

    ghost predicate Valid()
      reads this
    {
      WellFormed(filters)
    }

    constructor ()
      ensures Valid() && filters == Empty
    {
      filters := Empty;
    }

    /** The `filters` getter. */
    function Current(): (r: Filters)
      requires Valid()
      reads this
      ensures r.and != Some([]) && r.or != Some([])
    {
      View(filters)
    }

    /** `where(field, operator, value)`; `where(field, value)` passes `Undefined` as `value`. */
    method Where(field: string, operator: Value, value: Value)
      requires Valid()
      modifies this
      ensures Valid()
      ensures filters == Apply(old(filters), Call.Where(field, operator, value))
    {
      filters := Apply(filters, Call.Where(field, operator, value));
    }

    /** `orWhere(field, operator, value)`. */
    method OrWhere(field: string, operator: Value, value: Value)
      requires Valid()
      modifies this
      ensures Valid()
      ensures filters == Apply(old(filters), Call.OrWhere(field, operator, value))
    {
      filters := Apply(filters, Call.OrWhere(field, operator, value));
    }

    /** `where(fn)`: `sub` is the builder the callback returned. */
    method WhereGroup(sub: Filter)
      requires Valid()
      modifies this
      ensures Valid()
      ensures filters == Apply(old(filters), Call.WhereGroup(old(sub.filters)))
    {
      filters := Apply(filters, Call.WhereGroup(sub.filters));
    }

    /** `orWhere(fn)`. */
    method OrWhereGroup(sub: Filter)
      requires Valid()
      modifies this
      ensures Valid()
      ensures filters == Apply(old(filters), Call.OrWhereGroup(old(sub.filters)))
    {
      filters := Apply(filters, Call.OrWhereGroup(sub.filters));
    }

    /** `whereLike`. */
    method WhereLike(field: string, pattern: Value)
      requires Valid()
      modifies this
      ensures Valid()
      ensures filters == Apply(old(filters), Call.WhereLike(field, pattern))
    {
      filters := Apply(filters, Call.WhereLike(field, pattern));
    }

    /** `whereNotLike`. */
    method WhereNotLike(field: string, pattern: Value)
      requires Valid()
      modifies this
      ensures Valid()
      ensures filters == Apply(old(filters), Call.WhereNotLike(field, pattern))
    {
      filters := Apply(filters, Call.WhereNotLike(field, pattern));
    }

    /** `whereIn`. */
    method WhereIn(field: string, values: seq<Value>)
      requires Valid()
      modifies this
      ensures Valid()
      ensures filters == Apply(old(filters), Call.WhereIn(field, values))
    {
      filters := Apply(filters, Call.WhereIn(field, values));
    }

    /** `whereNotIn`. */
    method WhereNotIn(field: string, values: seq<Value>)
      requires Valid()
      modifies this
      ensures Valid()
      ensures filters == Apply(old(filters), Call.WhereNotIn(field, values))
    {
      filters := Apply(filters, Call.WhereNotIn(field, values));
    }

    /** `whereBetween`. */
    method WhereBetween(field: string, start: Value, end: Value)
      requires Valid()
      modifies this
      ensures Valid()
      ensures filters == Apply(old(filters), Call.WhereBetween(field, start, end))
    {
      filters := Apply(filters, Call.WhereBetween(field, start, end));
    }

    /** `whereNotBetween`. */
    method WhereNotBetween(field: string, start: Value, end: Value)
      requires Valid()
      modifies this
      ensures Valid()
      ensures filters == Apply(old(filters), Call.WhereNotBetween(field, start, end))
    {
      filters := Apply(filters, Call.WhereNotBetween(field, start, end));
    }

    /** `whereNull`. */
    method WhereNull(field: string)
      requires Valid()
      modifies this
      ensures Valid()
      ensures filters == Apply(old(filters), Call.WhereNull(field))
    {
      filters := Apply(filters, Call.WhereNull(field));
    }

    /** `whereNotNull`. */
    method WhereNotNull(field: string)
      requires Valid()
      modifies this
      ensures Valid()
      ensures filters == Apply(old(filters), Call.WhereNotNull(field))
    {
      filters := Apply(filters, Call.WhereNotNull(field));
    }

    method PushFilter(c: Combinator, n: Node)
      requires Valid()
      modifies this
      ensures Valid() && filters == Push(old(filters), c, n)
    {
      filters := Push(filters, c, n);
    }
  }
}
