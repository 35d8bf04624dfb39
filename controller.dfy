/**
 * The category controller over a live store. Each handler fetches the document, edits
 * its fields one step at a time and saves it back, and is proved to make exactly the
 * transition and the response that `Handlers` specifies.
 */
module Controller {
  import opened CategoryData
  import opened SpecList
  import opened Handlers

  class CategoryController {
    /** The "categories" collection. */
    var docs: Store

    constructor (initial: Store)
      ensures docs == initial
    {
      docs := initial;
    }

    method Create(actor: Actor, createdAt: Time, actived: bool, fault: Fault, newId: Id, name: string) returns (resp: Response)
      modifies this
      ensures Outcome(docs, resp) == Handlers.Create(old(docs), actor, createdAt, actived, fault, newId, name)
    {
      var doc := Category(newId, name, Stamp(actor.id, actor.name, createdAt), [], actived, []);
      if fault == SaveFault || newId in docs {
        return Failure(500, ServerError);
      }
      docs := docs[newId := doc];
      resp := Success(201, "Created!", "Category created successfully.", OneCategory(doc));
    }

    method GetAll(fault: Fault) returns (resp: Response)
      ensures resp == Handlers.GetAll(docs, fault)
    {
      if fault == LookupFault {
        return Failure(500, ServerError);
      }
      resp := Response(200, true, None, None, AllCategories(docs));
    }

    method GetByID(fault: Fault, categoryId: Id) returns (resp: Response)
      ensures resp == Handlers.GetByID(docs, fault, categoryId)
    {
      if fault == LookupFault {
        return Failure(500, ServerError);
      }
      if categoryId !in docs {
        return Failure(400, CategoryNotFound);
      }
      resp := Response(200, true, None, None, OneCategory(docs[categoryId]));
    }

    method UpdateName(actor: Actor, now: Time, fault: Fault, categoryId: Id, name: string) returns (resp: Response)
      modifies this
      ensures Outcome(docs, resp) == Handlers.UpdateName(old(docs), actor, now, fault, categoryId, name)
    {
      if fault == LookupFault {
        return Failure(500, ServerError);
      }
      if categoryId !in docs {
        return Failure(400, CategoryNotFound);
      }
      var doc := docs[categoryId];
      if name == doc.name {
        return Failure(400, NothingToUpdate);
      }
      doc := doc.(name := name);
      doc := doc.(updated := doc.updated + [Stamp(actor.id, actor.name, now)]);
      if fault == SaveFault {
        return Failure(500, ServerError);
      }
      docs := docs[categoryId := doc];
      resp := Success(200, "Updated!", "Category's name updated successfully.", OneCategory(doc));
    }

    method Remove(fault: Fault, categoryId: Id) returns (resp: Response)
      modifies this
      ensures Outcome(docs, resp) == Handlers.Remove(old(docs), fault, categoryId)
    {
      if fault == LookupFault {
        return Failure(500, ServerError);
      }
      if categoryId !in docs {
        return Failure(404, CategoryNotFound);
      }
      var deleted := docs[categoryId];
      docs := docs - {categoryId};
      resp := Response(200, true, Some("Deleted!"), None, OneCategory(deleted));
    }

    method GetSpec(fault: Fault, categoryId: Id, specId: Id) returns (resp: Response)
      ensures resp == Handlers.GetSpec(docs, fault, categoryId, specId)
    {
      if fault == LookupFault {
        return Failure(500, ServerError);
      }
      if categoryId !in docs {
        return Failure(400, CategoryNotFound);
      }
      var spec := Find(docs[categoryId].specs, specId);
      if spec.None? {
        return Failure(400, SpecNotFound);
      }
      resp := Response(200, true, None, None, OneSpec(spec.value));
    }

    method AddSpecs(fault: Fault, categoryId: Id, newSpecId: Id, name: string, options: seq<string>) returns (resp: Response)
      modifies this
      ensures Outcome(docs, resp) == Handlers.AddSpecs(old(docs), fault, categoryId, newSpecId, name, options)
    {
      if fault == LookupFault {
        return Failure(500, ServerError);
      }
      if categoryId !in docs {
        return Failure(400, CategoryNotFound);
      }
      var doc := docs[categoryId];
      doc := doc.(specs := doc.specs + [Spec(newSpecId, name, options)]);
      if fault == SaveFault {
        return Failure(500, ServerError);
      }
      docs := docs[categoryId := doc];
      resp := Success(200, "Added!", "Specification added successfully.", OneCategory(doc));
    }

    method UpdateSpecs(actor: Actor, now: Time, fault: Fault, categoryId: Id, specId: Id,
                       name: string, options: seq<string>) returns (resp: Response)
      modifies this
      ensures Outcome(docs, resp) == Handlers.UpdateSpecs(old(docs), actor, now, fault, categoryId, specId, name, options)
    {
      if fault == LookupFault {
        return Failure(500, ServerError);
      }
      if categoryId !in docs {
        return Failure(400, CategoryNotFound);
      }
      var doc := docs[categoryId];
      var specIndex := FindIndex(doc.specs, specId);
      if specIndex == -1 {
        return Failure(404, SpecNotFound);
      }
      var oldName := doc.specs[specIndex].name;
      var oldOptions := doc.specs[specIndex].options;
      if name == oldName && options == oldOptions {
        return Failure(400, NothingToUpdate);
      }
      doc := doc.(specs := doc.specs[specIndex := doc.specs[specIndex].(name := name)]);
      doc := doc.(specs := doc.specs[specIndex := doc.specs[specIndex].(options := options)]);
      doc := doc.(updated := doc.updated + [Stamp(actor.id, actor.name, now)]);
      if fault == SaveFault {
        return Failure(500, ServerError);
      }
      assert doc.specs == Overwrite(old(docs)[categoryId].specs, specIndex, name, options);
      docs := docs[categoryId := doc];
      resp := Success(200, "Updated!", "Specification updated successfully.", OneCategory(doc));
    }

    method RemoveSpecs(actor: Actor, now: Time, fault: Fault, categoryId: Id, specId: Id) returns (resp: Response)
      modifies this
      ensures Outcome(docs, resp) == Handlers.RemoveSpecs(old(docs), actor, now, fault, categoryId, specId)
    {
      if fault == LookupFault {
        return Failure(500, ServerError);
      }
      if categoryId !in docs {
        return Failure(400, CategoryNotFound);
      }
      var doc := docs[categoryId];
      var specIndex := FindIndex(doc.specs, specId);
      if specIndex == -1 {
        return Failure(404, SpecNotFound);
      }
      doc := doc.(specs := doc.specs[..specIndex] + doc.specs[specIndex + 1..]);
      doc := doc.(updated := doc.updated + [Stamp(actor.id, actor.name, now)]);
      if fault == SaveFault {
        return Failure(500, ServerError);
      }
      assert doc.specs == RemoveAt(old(docs)[categoryId].specs, specIndex);
      docs := docs[categoryId := doc];
      resp := Success(200, "Deleted!", "Specification deleted successfully.", OneCategory(doc));
    }
  }
}
