/** The routing rules of `QueryBuilder`: which filter calls and which final
    action `findBy`, `find`, `destroy`, `create` and the instance forms
    `save`, `delete` and `restore` hand to a fresh query. */
module QueryRouting {
  import opened Wrappers
  import opened Json
  import opened MongoIds
  import opened Filtering

  /** What a request finally asks of its query, after the filter calls. */
  datatype Action =
    | FirstRow
    | DeleteRows(force: Value)
    | RestoreRows
    | UpdateRows(item: Value)
    | InsertAndGetId(item: Value)

  /** The filter calls made on a fresh query, then the action. */
  datatype Request = Request(calls: seq<Call>, action: Action)

  /** An instance operation either answers at once or runs a request. */
  datatype Outcome = Done(count: int) | Run(request: Request)

  /** The filter the request's calls build, as the driver reads it. */
  function Selection(r: Request): Filters
  {
    DriverView(ApplyAll(Empty, r.calls))
  }

  /** The `whereIn` for an array, the two-argument `where` otherwise. */
  function Select(field: string, value: Value): (c: Call)
    ensures value.Arr? ==> c == WhereIn(field, value.items)
    ensures !value.Arr? ==> c.Where? && c.field == field && c.value == Undefined
  {
    if value.Arr? then WhereIn(field, value.items) else Where(field, value, Undefined)
  }

  /** `findBy(field, value)`: `whereIn(field, value).first()` for an array,
      `where(field, value).first()` otherwise. */
  function FindBy(field: string, value: Value): (r: Request)
    ensures r.action == FirstRow && |r.calls| == 1
    ensures r.calls[0].WhereIn? <==> value.Arr?
  {
    Request([Select(field, value)], FirstRow)
  }

  /** `find(ids)` is `findBy("id", ids)`. */
  function Find(ids: Value): (r: Request)
    ensures r.action == FirstRow && |r.calls| == 1
  {
    FindBy("id", ids)
  }

  /** `destroy(ids, force)`: the same selection by `id`, then `delete(force)`. */
  function Destroy(ids: Value, force: Value): (r: Request)
    ensures r.action == DeleteRows(force) && |r.calls| == 1
  {
    Request([Select("id", ids)], DeleteRows(force))
  }

  /** `create(item)`: `insertGetId(item)`, then `find` of the id the store
      answered with. */
  function Create(item: Value, insertedId: Value): (r: seq<Request>)
    ensures |r| == 2 && r[0].calls == [] && r[0].action == InsertAndGetId(item) && r[1] == Find(insertedId)
  {
    [Request([], InsertAndGetId(item)), Find(insertedId)]
  }

  /** Instance `save()`: a new model is created; a saved one is updated
      under `where("id", attributes.id)` and then found again. */
  function Save(isNew: bool, attributes: Value, insertedId: Value): (r: seq<Request>)
    ensures |r| == 2
    ensures isNew ==> r == Create(attributes, insertedId)
    ensures !isNew ==> r[0].action == UpdateRows(attributes) && r[1].action == FirstRow
  {
    if isNew then Create(attributes, insertedId)
    else
      var id := Member(attributes, "id");
      [Request([Where("id", id, Undefined)], UpdateRows(attributes)), Find(id)]
  }

  /** Instance `delete(force)`: 0 for an unsaved model, otherwise
      `destroy(_original.id, force)`. */
  function Delete(isNew: bool, originalId: Value, force: Value): (r: Outcome)
    ensures isNew <==> r == Done(0)
    ensures !isNew ==> r.Run? && r.request.action == DeleteRows(force)
  {
    if isNew then Done(0) else Run(Destroy(originalId, force))
  }

  /** Instance `restore()`: 0 for an unsaved model, otherwise `restore()`
      under `where("id", _original.id)`. */
  function Restore(isNew: bool, originalId: Value): (r: Outcome)
    ensures isNew <==> r == Done(0)
    ensures !isNew ==> r.Run? && r.request.action == RestoreRows
  {
    if isNew then Done(0)
    else Run(Request([Where("id", originalId, Undefined)], RestoreRows))
  }

  /** The one-leaf `$and` a single call leaves on a fresh query. */
  function OneLeaf(field: string, op: string, value: Value): Filters
  {
    Filters(Some([Condition(field, op, value)]), None)
  }

  lemma SelectOnFresh(field: string, value: Value)
    ensures Selection(Request([Select(field, value)], FirstRow)) ==
            OneLeaf(field, if value.Arr? then "in" else "eq", value)
  {
    var c := Select(field, value);
    assert ApplyAll(Empty, [c]) == Apply(Empty, c);
    if value.Arr? {
      assert Arr(value.items) == value;
      assert [] + [Condition(field, "in", Arr(value.items))] == [Condition(field, "in", value)];
    } else {
      assert Arguments(value, Undefined) == ("eq", value);
      assert [] + [Condition(field, "eq", value)] == [Condition(field, "eq", value)];
    }
  }

  /** `findBy` selects with one prepared leaf: membership for an array,
      equality for anything else, even a value that reads like an operator. */
  lemma FindBySelection(field: string, value: Value)
    ensures Selection(FindBy(field, value)) == OneLeaf(field, if value.Arr? then "in" else "eq", value)
    ensures Selection(FindBy(field, value)).and.value[0] ==
            Leaf(PrepareKey(field), if value.Arr? then "$in" else "$eq", PrepareValue(PrepareKey(field), value))
  {
    SelectOnFresh(field, value);
  }

  /** `find` matches `_id`, and a valid id is sent as an ObjectId. */
  lemma FindSelectsObjectId(id: Value)
    requires !id.Arr? && IsValidObjectId(id)
    ensures Selection(Find(id)) == Filters(Some([Leaf("_id", "$eq", NewObjectId(id))]), None)
  {
    FindBySelection("id", id);
  }

  /** `destroy` deletes exactly the rows `find` of the same ids would read:
      membership in an array of ids, equality with a single one. */
  lemma DestroySelection(ids: Value, force: Value)
    ensures Selection(Destroy(ids, force)) == Selection(Find(ids))
    ensures Selection(Destroy(ids, force)) == OneLeaf("id", if ids.Arr? then "in" else "eq", ids)
  {
    SelectOnFresh("id", ids);
  }

  /** `create` inserts without any filter and then reads back the row with
      the id the insert answered. */
  lemma CreateReadsInsertedRow(item: Value, insertedId: Value)
    ensures Selection(Create(item, insertedId)[0]) == Filters(None, None)
    ensures Selection(Create(item, insertedId)[1]) ==
            OneLeaf("id", if insertedId.Arr? then "in" else "eq", insertedId)
  {
    FindBySelection("id", insertedId);
  }

  /** For a saved model, the update and the read that follows it select the
      same rows: those whose `_id` is the model's own. */
  lemma SaveUpdatesWhatItReads(attributes: Value, insertedId: Value)
    requires !Member(attributes, "id").Arr?
    ensures Selection(Save(false, attributes, insertedId)[0]) == Selection(Save(false, attributes, insertedId)[1])
    ensures Selection(Save(false, attributes, insertedId)[0]) == OneLeaf("id", "eq", Member(attributes, "id"))
  {
    var id := Member(attributes, "id");
    SelectOnFresh("id", id);
    assert Select("id", id) == Where("id", id, Undefined);
  }

  /** A saved model's `delete` is `destroy` of its original id, and
      `restore` selects the same rows. */
  lemma SavedDeleteAndRestore(originalId: Value, force: Value)
    requires !originalId.Arr?
    ensures Delete(false, originalId, force) == Run(Destroy(originalId, force))
    ensures Selection(Restore(false, originalId).request) == Selection(Delete(false, originalId, force).request)
  {
    assert Select("id", originalId) == Where("id", originalId, Undefined);
  }
}
