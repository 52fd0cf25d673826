/** The guards of the one-to-one relations `hasOne` and `morphOne`: they
    look at the store's answer to `exists()` or `first()` and either refuse,
    pass an error on, or hand the call to the generic relation. */
module StrictOne {
  import opened Wrappers
  import opened Json

  /** The two relations that hold at most one related row. `MorphOneGuard`
      carries the name of the concrete relation class. */
  datatype Variant = HasOneGuard | MorphOneGuard(className: string)

  /** The store's answer to a query: an error or a value. */
  datatype Answer<T> = StoreError(error: string) | Answered(value: T)

  /** What a guarded call does: refuse with a `TypeError`, pass the store's
      error to the callback unchanged, delegate to the generic relation, or
      throw while inspecting the answer. */
  datatype Decision = Reject(message: string) | Propagate(error: string) | Delegate | Crash(message: string)

  function InsertMessage(v: Variant): string
  {
    match v
    case HasOneGuard => "'hasOne' relation can't insert multiple items"
    case MorphOneGuard(name) => "'" + name + "' relation can't insert multiple items"
  }

  function AlreadyHasOne(alias: string): string
  {
    "This item already has one " + alias
  }

  /** `insert(items)`: refused before the store is asked anything. */
  function Insert(v: Variant, items: seq<Value>): (d: Decision)
    ensures d == Reject(InsertMessage(v))
  {
    Reject(InsertMessage(v))
  }

  /** `create(item)` after `exists()`: an existing row refuses the call. */
  function Create(alias: string, found: Answer<bool>): (d: Decision)
    ensures found.StoreError? ==> d == Propagate(found.error)
    ensures found.Answered? ==> (d == Reject(AlreadyHasOne(alias)) <==> found.value)
    ensures found.Answered? ==> (d == Delegate <==> !found.value)
  {
    match found
    case StoreError(e) => Propagate(e)
    case Answered(b) => if b then Reject(AlreadyHasOne(alias)) else Delegate
  }

  /** `save(item)` in promise form after `first()`: refused when a related
      row exists whose `id` is not the item's. */
  function Save(alias: string, id: Value, first: Answer<Option<Value>>): (d: Decision)
    ensures first.StoreError? ==> d == Propagate(first.error)
    ensures first.Answered? ==>
      (d == Reject(AlreadyHasOne(alias)) <==> first.value.Some? && Member(first.value.value, "id") != id)
    ensures first.Answered? && !d.Reject? ==> d == Delegate
  {
    match first
    case StoreError(e) => Propagate(e)
    case Answered(row) =>
      if row.Some? && Member(row.value, "id") != id then Reject(AlreadyHasOne(alias)) else Delegate
  }

  /** `save(item, callback)`: the same comparison without the guard for a
      missing row, which reads `id` of `undefined`. */
  function SaveWithCallback(alias: string, id: Value, first: Answer<Option<Value>>): (d: Decision)
    ensures first.StoreError? ==> d == Propagate(first.error)
    ensures first == Answered(None) ==> d == Crash("Cannot read property 'id' of undefined")
  {
    match first
    case StoreError(e) => Propagate(e)
    case Answered(row) =>
      if row.None? then Crash("Cannot read property 'id' of undefined")
      else if Member(row.value, "id") != id then Reject(AlreadyHasOne(alias))
      else Delegate
  }

  /** Both relations refuse every insert, and `morphOne`'s message names
      the relation class while `hasOne`'s is fixed. */
  lemma InsertNeverDelegates(v: Variant, items: seq<Value>)
    ensures Insert(v, items).Reject? && !Insert(v, items).Delegate?
    ensures v.HasOneGuard? ==> Insert(v, items).message == "'hasOne' relation can't insert multiple items"
    ensures v.MorphOneGuard? ==> Insert(v, items).message[1..|v.className| + 1] == v.className
  {
    if v.MorphOneGuard? {
      var m := InsertMessage(v);
      assert m == "'" + v.className + "' relation can't insert multiple items";
      assert m[1..|v.className| + 1] == v.className;
    }
  }

  /** Saving the row that is already related, or saving when none is, is
      handed on; any other existing row refuses the save. */
  lemma SaveAllowsOnlyTheSameRow(alias: string, id: Value, row: Value)
    ensures Save(alias, id, Answered(None)) == Delegate
    ensures Member(row, "id") == id ==> Save(alias, id, Answered(Some(row))) == Delegate
    ensures Member(row, "id") != id ==> Save(alias, id, Answered(Some(row))) == Reject(AlreadyHasOne(alias))
  {
  }

  /** The two forms of `save` decide alike whenever the store answered with
      a row or an error; they differ only when no row exists. */
  lemma SaveFormsAgreeExceptOnNoRow(alias: string, id: Value, first: Answer<Option<Value>>)
    ensures first != Answered(None) ==> SaveWithCallback(alias, id, first) == Save(alias, id, first)
    ensures first == Answered(None) ==> Save(alias, id, first) == Delegate && SaveWithCallback(alias, id, first).Crash?
  {
  }

  /** `create` and `save` refuse with the same message. */
  lemma SameRefusal(alias: string, id: Value, row: Value)
    requires Member(row, "id") != id
    ensures Create(alias, Answered(true)) == Save(alias, id, Answered(Some(row)))
  {
  }
}
