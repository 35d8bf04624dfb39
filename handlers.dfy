/**
 * The JSON request handlers of the category controller, each a transition from the store
 * before the request to the store after it, paired with the response sent back.
 * A failed request never changes the store.
 */
module Handlers {
  import opened CategoryData
  import opened SpecList

  /**
   * Where the document store raises an exception, if it does: in the handler's lookup
   * (`find`, `findOne`, `findOneAndDelete`) or in its `save`. Either way the handler
   * answers 500 and the store keeps its old contents.
   */
  datatype Fault = NoFault | LookupFault | SaveFault

  /** The payload of a response. */
  datatype Body =
    | NoBody
    | OneCategory(category: Category)
    | AllCategories(categories: Store)
    | OneSpec(spec: Spec)

  /** A JSON response: its HTTP status, the `success` flag, the optional `title` and `message`, the payload. */
  datatype Response = Response(status: int, success: bool, title: Option<string>, message: Option<string>, body: Body)

  /** The store after a request, and the response to it. */
  datatype Outcome = Outcome(store: Store, response: Response)

  const CategoryNotFound := "Category not found."
  const SpecNotFound := "Specification not found."
  const NothingToUpdate := "Nothing to update."
  const ServerError := "Internal Server Error"

  function Failure(status: int, message: string): Response {
    Response(status, false, None, Some(message), NoBody)
  }

  function Success(status: int, title: string, message: string, body: Body): Response {
    Response(status, true, Some(title), Some(message), body)
  }

  /** A failed request: the store as it was, and a failure response. */
  function Rejected(store: Store, status: int, message: string): Outcome {
    Outcome(store, Failure(status, message))
  }

  /**
   * `create`: inserts a new category named `name` whose `created` records the actor,
   * with an empty log and no specs. The store generates `newId`; `createdAt` and
   * `actived` are the values the schema fills in. Inserting an id that is already
   * stored raises (duplicate key), which the handler reports as 500.
   */
  function Create(store: Store, actor: Actor, createdAt: Time, actived: bool, fault: Fault, newId: Id, name: string): (o: Outcome)
    ensures o.response.success <==> fault != SaveFault && newId !in store
    ensures !o.response.success ==> o == Rejected(store, 500, ServerError)
    ensures o.response.success ==>
      && o.store.Keys == store.Keys + {newId}
      && (forall k :: k in store ==> o.store[k] == store[k])
      && var c := o.store[newId];
         && c.id == newId && c.name == name && c.actived == actived
         && c.created == Stamp(actor.id, actor.name, createdAt)
         && c.updated == [] && c.specs == []
         && o.response == Success(201, "Created!", "Category created successfully.", OneCategory(c))
  {
    if fault == SaveFault || newId in store then Rejected(store, 500, ServerError)
    else
      var c := Category(newId, name, Stamp(actor.id, actor.name, createdAt), [], actived, []);
      Outcome(store[newId := c], Success(201, "Created!", "Category created successfully.", OneCategory(c)))
  }

  /** `getAll`: every category, unfiltered. */
  function GetAll(store: Store, fault: Fault): (r: Response)
    ensures r.success <==> fault != LookupFault
    ensures !r.success ==> r == Failure(500, ServerError)
    ensures r.success ==> r.status == 200 && r.body == AllCategories(store) && r.title.None? && r.message.None?
  {
    if fault == LookupFault then Failure(500, ServerError)
    else Response(200, true, None, None, AllCategories(store))
  }

  /** `getByID`: the category stored under `categoryId`; a missing one is answered with 400. */
  function GetByID(store: Store, fault: Fault, categoryId: Id): (r: Response)
    ensures r.success <==> fault != LookupFault && categoryId in store
    ensures fault == LookupFault ==> r == Failure(500, ServerError)
    ensures fault != LookupFault && categoryId !in store ==> r == Failure(400, CategoryNotFound)
    ensures r.success ==> r == Response(200, true, None, None, OneCategory(store[categoryId]))
  {
    if fault == LookupFault then Failure(500, ServerError)
    else if categoryId !in store then Failure(400, CategoryNotFound)
    else Response(200, true, None, None, OneCategory(store[categoryId]))
  }

  /**
   * `updateName`: renames the category and appends one audit entry for the actor.
   * Checked in this order: the category exists (400), the name differs (400).
   */
  function UpdateName(store: Store, actor: Actor, now: Time, fault: Fault, categoryId: Id, name: string): (o: Outcome)
    ensures fault == LookupFault ==> o == Rejected(store, 500, ServerError)
    ensures fault != LookupFault && categoryId !in store ==> o == Rejected(store, 400, CategoryNotFound)
    ensures fault != LookupFault && categoryId in store && name == store[categoryId].name ==>
      o == Rejected(store, 400, NothingToUpdate)
    ensures fault == SaveFault && categoryId in store && name != store[categoryId].name ==>
      o == Rejected(store, 500, ServerError)
    ensures o.response.success <==> fault == NoFault && categoryId in store && name != store[categoryId].name
    ensures o.response.success ==>
      && OnlyChanged(store, o.store, categoryId)
      && var before, after := store[categoryId], o.store[categoryId];
         && after.name == name
         && after.updated == before.updated + [Stamp(actor.id, actor.name, now)]
         && after == before.(name := after.name, updated := after.updated)
         && o.response == Success(200, "Updated!", "Category's name updated successfully.", OneCategory(after))
  {
    if fault == LookupFault then Rejected(store, 500, ServerError)
    else if categoryId !in store then Rejected(store, 400, CategoryNotFound)
    else
      var c := store[categoryId];
      if name == c.name then Rejected(store, 400, NothingToUpdate)
      else if fault == SaveFault then Rejected(store, 500, ServerError)
      else
        var c' := c.(name := name, updated := c.updated + [Stamp(actor.id, actor.name, now)]);
        assert fault == NoFault;
        Outcome(store[categoryId := c'], Success(200, "Updated!", "Category's name updated successfully.", OneCategory(c')))
  }

  /**
   * `remove`: deletes the category in one find-and-delete and returns the deleted document.
   * A missing category is answered with 404, unlike the other handlers.
   */
  function Remove(store: Store, fault: Fault, categoryId: Id): (o: Outcome)
    ensures fault == LookupFault ==> o == Rejected(store, 500, ServerError)
    ensures fault != LookupFault && categoryId !in store ==> o == Rejected(store, 404, CategoryNotFound)
    ensures o.response.success <==> fault != LookupFault && categoryId in store
    ensures o.response.success ==>
      && categoryId !in o.store
      && o.store.Keys == store.Keys - {categoryId}
      && (forall k :: k in o.store ==> o.store[k] == store[k])
      && o.response == Response(200, true, Some("Deleted!"), None, OneCategory(store[categoryId]))
  {
    if fault == LookupFault then Rejected(store, 500, ServerError)
    else if categoryId !in store then Rejected(store, 404, CategoryNotFound)
    else Outcome(store - {categoryId}, Response(200, true, Some("Deleted!"), None, OneCategory(store[categoryId])))
  }

  /**
   * `getSpec`: the first spec of the category whose id is `specId`.
   * A missing category and a missing spec are both answered with 400.
   */
  function GetSpec(store: Store, fault: Fault, categoryId: Id, specId: Id): (r: Response)
    ensures fault == LookupFault ==> r == Failure(500, ServerError)
    ensures fault != LookupFault && categoryId !in store ==> r == Failure(400, CategoryNotFound)
    ensures fault != LookupFault && categoryId in store && FindIndex(store[categoryId].specs, specId) == -1 ==>
      r == Failure(400, SpecNotFound)
    ensures r.success <==> fault != LookupFault && categoryId in store && FindIndex(store[categoryId].specs, specId) != -1
    ensures r.success ==>
      var specs := store[categoryId].specs;
      r == Response(200, true, None, None, OneSpec(specs[FindIndex(specs, specId)]))
  {
    if fault == LookupFault then Failure(500, ServerError)
    else if categoryId !in store then Failure(400, CategoryNotFound)
    else
      var spec := Find(store[categoryId].specs, specId);
      FindIsAtFindIndex(store[categoryId].specs, specId);
      if spec.None? then Failure(400, SpecNotFound)
      else Response(200, true, None, None, OneSpec(spec.value))
  }

  /**
   * `addSpecs`: appends one spec with the given name and options at the end of `specs`.
   * The store generates `newSpecId`. No audit entry is appended.
   */
  function AddSpecs(store: Store, fault: Fault, categoryId: Id, newSpecId: Id, name: string, options: seq<string>): (o: Outcome)
    ensures fault == LookupFault ==> o == Rejected(store, 500, ServerError)
    ensures fault != LookupFault && categoryId !in store ==> o == Rejected(store, 400, CategoryNotFound)
    ensures fault == SaveFault && categoryId in store ==> o == Rejected(store, 500, ServerError)
    ensures o.response.success <==> fault == NoFault && categoryId in store
    ensures o.response.success ==>
      && OnlyChanged(store, o.store, categoryId)
      && var before, after := store[categoryId], o.store[categoryId];
         && |after.specs| == |before.specs| + 1
         && after.specs[..|before.specs|] == before.specs
         && after.specs[|before.specs|] == Spec(newSpecId, name, options)
         && after == before.(specs := after.specs)
         && o.response == Success(200, "Added!", "Specification added successfully.", OneCategory(after))
  {
    if fault == LookupFault then Rejected(store, 500, ServerError)
    else if categoryId !in store then Rejected(store, 400, CategoryNotFound)
    else if fault == SaveFault then Rejected(store, 500, ServerError)
    else
      var c := store[categoryId];
      var c' := c.(specs := c.specs + [Spec(newSpecId, name, options)]);
      assert fault == NoFault;
      Outcome(store[categoryId := c'], Success(200, "Added!", "Specification added successfully.", OneCategory(c')))
  }

  /**
   * `updateSpecs`: gives the first spec whose id is `specId` a new name and new options,
   * and appends one audit entry. Checked in this order: the category exists (400), the
   * spec exists (404), the name or the options differ (400). Options compare element by
   * element, in order.
   */
  function UpdateSpecs(store: Store, actor: Actor, now: Time, fault: Fault, categoryId: Id, specId: Id,
                       name: string, options: seq<string>): (o: Outcome)
    ensures fault == LookupFault ==> o == Rejected(store, 500, ServerError)
    ensures fault != LookupFault && categoryId !in store ==> o == Rejected(store, 400, CategoryNotFound)
    ensures fault != LookupFault && categoryId in store && FindIndex(store[categoryId].specs, specId) == -1 ==>
      o == Rejected(store, 404, SpecNotFound)
    ensures fault != LookupFault && categoryId in store && FindIndex(store[categoryId].specs, specId) != -1 ==>
      var spec := store[categoryId].specs[FindIndex(store[categoryId].specs, specId)];
      && (spec.name == name && spec.options == options ==> o == Rejected(store, 400, NothingToUpdate))
      && (fault == SaveFault && (spec.name != name || spec.options != options) ==> o == Rejected(store, 500, ServerError))
    ensures o.response.success <==>
      && fault == NoFault && categoryId in store
      && var specs := store[categoryId].specs;
         && FindIndex(specs, specId) != -1
         && (specs[FindIndex(specs, specId)].name != name || specs[FindIndex(specs, specId)].options != options)
    ensures o.response.success ==>
      && OnlyChanged(store, o.store, categoryId)
      && var before, after := store[categoryId], o.store[categoryId];
         && var i := FindIndex(before.specs, specId);
         && |after.specs| == |before.specs|
         && after.specs[i] == Spec(specId, name, options)
         && (forall j :: 0 <= j < |before.specs| && j != i ==> after.specs[j] == before.specs[j])
         && after.updated == before.updated + [Stamp(actor.id, actor.name, now)]
         && after == before.(specs := after.specs, updated := after.updated)
         && o.response == Success(200, "Updated!", "Specification updated successfully.", OneCategory(after))
  {
    if fault == LookupFault then Rejected(store, 500, ServerError)
    else if categoryId !in store then Rejected(store, 400, CategoryNotFound)
    else
      var c := store[categoryId];
      var i := FindIndex(c.specs, specId);
      if i == -1 then Rejected(store, 404, SpecNotFound)
      else if name == c.specs[i].name && options == c.specs[i].options then Rejected(store, 400, NothingToUpdate)
      else if fault == SaveFault then Rejected(store, 500, ServerError)
      else
        var c' := c.(specs := Overwrite(c.specs, i, name, options), updated := c.updated + [Stamp(actor.id, actor.name, now)]);
        Outcome(store[categoryId := c'], Success(200, "Updated!", "Specification updated successfully.", OneCategory(c')))
  }

  /**
   * `removeSpecs`: splices out the first spec whose id is `specId` and appends one audit
   * entry. Checked in this order: the category exists (400), the spec exists (404).
   */
  function RemoveSpecs(store: Store, actor: Actor, now: Time, fault: Fault, categoryId: Id, specId: Id): (o: Outcome)
    ensures fault == LookupFault ==> o == Rejected(store, 500, ServerError)
    ensures fault != LookupFault && categoryId !in store ==> o == Rejected(store, 400, CategoryNotFound)
    ensures fault != LookupFault && categoryId in store && FindIndex(store[categoryId].specs, specId) == -1 ==>
      o == Rejected(store, 404, SpecNotFound)
    ensures fault == SaveFault && categoryId in store && FindIndex(store[categoryId].specs, specId) != -1 ==>
      o == Rejected(store, 500, ServerError)
    ensures o.response.success <==>
      fault == NoFault && categoryId in store && FindIndex(store[categoryId].specs, specId) != -1
    ensures o.response.success ==>
      && OnlyChanged(store, o.store, categoryId)
      && var before, after := store[categoryId], o.store[categoryId];
         && var i := FindIndex(before.specs, specId);
         && |after.specs| == |before.specs| - 1
         && after.specs[..i] == before.specs[..i]
         && after.specs[i..] == before.specs[i + 1..]
         && after.updated == before.updated + [Stamp(actor.id, actor.name, now)]
         && after == before.(specs := after.specs, updated := after.updated)
         && o.response == Success(200, "Deleted!", "Specification deleted successfully.", OneCategory(after))
  {
    if fault == LookupFault then Rejected(store, 500, ServerError)
    else if categoryId !in store then Rejected(store, 400, CategoryNotFound)
    else
      var c := store[categoryId];
      var i := FindIndex(c.specs, specId);
      if i == -1 then Rejected(store, 404, SpecNotFound)
      else if fault == SaveFault then Rejected(store, 500, ServerError)
      else
        var c' := c.(specs := RemoveAt(c.specs, i), updated := c.updated + [Stamp(actor.id, actor.name, now)]);
        assert fault == NoFault;
        Outcome(store[categoryId := c'], Success(200, "Deleted!", "Specification deleted successfully.", OneCategory(c')))
  }
}
