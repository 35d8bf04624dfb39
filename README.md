# Category controller model

A Dafny model of the category controller of an Express/Mongoose point-of-sale backend
(`controllers/category.js`). The controller serves JSON requests over one document
collection, "categories". Each category has a name, a `created` record of the user who
created it, an append-only `updated` audit log, a status flag `actived`, and an ordered
list of embedded specifications. Each specification has an id, a name and an ordered
list of option values. The controller also renders the category list page.

Once the document store is seen as a finite map from id to category, every handler is a
transition. It takes the store, the acting user, the clock reading and the request body.
It gives back the new store and the JSON response: HTTP status, `success` flag,
optional `title` and `message`, and payload.

## Files

- `category_data.dfy` (module `CategoryData`): the documents, the store, and the store
  invariant `Valid`. `Valid` says each document is stored under its own id and its spec
  ids are distinct. It also defines `LogsGrow`, the relation "no audit log lost an entry".
- `spec_list.dfy` (module `SpecList`): the array operations the handlers use on `specs`.
  These are `findIndex`, `find`, `splice(i, 1)`, and the overwrite of one element's name
  and options. Lemmas relate them to each other and to distinct ids.
- `handlers.dfy` (module `Handlers`): each JSON handler as a function from store and
  request to `Outcome(store, response)`. Each contract gives every failure in the order
  the code checks for it, with its status code. It says exactly when the request
  succeeds, and what the successful request does to the store.
- `controller.dfy` (module `Controller`): the class `CategoryController`. It holds the
  store and has one method per handler. Like the source, each method fetches the
  document, edits its fields one at a time (name, log push, spec overwrite, splice) and
  saves it. Each method is proved to produce exactly the `Handlers` transition.
- `render.dfy` (module `Render`): the view model that `renderCategoryList` builds.
- `properties.dfy` (module `Properties`): the handlers as one request state machine
  (`Step`, `Run`), and properties that span several requests.

Store exceptions are the parameter `Fault`. `LookupFault` means the handler's
`find`/`findOne`/`findOneAndDelete` raises: the handler answers 500 before any check.
`SaveFault` means `save()` raises: the handler answers 500 only if it gets as far as
saving. In both cases the store keeps its old contents. `create` makes no lookup, and the
atomic `findOneAndDelete` of `remove` counts as its lookup. Inserting a category under an
id the store already holds raises a duplicate-key error, so `Create` answers 500 there.

The log is appended to, so `updated[0]` is the OLDEST entry. The category list shows that
entry's date. `Properties.DisplayedDateIgnoresLaterUpdates` and
`Properties.RunKeepsDisplayedDate` prove the consequence. Once a category has been updated,
the date the list shows stays the same over any later requests that do not delete it. A
`remove` followed by a `create` under the same id starts a new, empty log.

Status codes follow the code, including where they are inconsistent:
- a missing category is 400 everywhere except in `remove`, where it is 404;
- a missing spec is 400 in `getSpec` and 404 in `updateSpecs` and `removeSpecs`.

`addSpecs` appends no audit entry, as in the code.

## Model

| member | source | states |
|---|---|---|
| SpecList.FindIndex | controllers/category.js:141-144 | the result is -1 exactly when no spec has the id; otherwise it is the index of a spec with that id, and no earlier spec has it |
| SpecList.Find | controllers/category.js:102-105 | the result is absent exactly when no spec has the id; otherwise it is one of the specs and has the id |
| SpecList.FindIsAtFindIndex | controllers/category.js:102-107 | `find` returns the spec at the index `findIndex` gives, so `getSpec` returns the first match |
| SpecList.RemoveAt | controllers/category.js:184 | `splice(i, 1)` shortens the list by one; the elements before `i` stay in place, the ones after move down by one; the multiset loses exactly the removed element |
| SpecList.Overwrite | controllers/category.js:152-153 | the spec at `i` gets the new name and options and keeps its id; the length and every other spec are unchanged |
| SpecList.FindIndexOfUnique | controllers/category.js:141 | with distinct ids, `findIndex` of a spec's id is that spec's own index |
| SpecList.FindIndexAppend | controllers/category.js:122 | after a push, `findIndex` finds the same earlier spec as before; only a new id is found, at the old length |
| SpecList.AppendFreshKeepsUnique | controllers/category.js:122 | pushing a spec whose id is new keeps spec ids distinct |
| SpecList.RemoveAtKeepsUnique | controllers/category.js:184 | splicing out a spec keeps ids distinct, and no remaining spec has the removed id |
| SpecList.OverwriteKeepsUnique | controllers/category.js:152-153 | overwriting name and options keeps spec ids distinct |
| Handlers.Create | controllers/category.js:4-22 | success exactly when the save does not raise and the id is new; the store gains one category: the given name, `created` = the actor, empty log, no specs; status 201; any failure is 500 with the store unchanged |
| Handlers.GetAll | controllers/category.js:24-32 | 200 with the whole store, or 500 when the lookup raises |
| Handlers.GetByID | controllers/category.js:34-47 | 500 on a lookup error, then 400 "Category not found."; otherwise 200 with the stored category |
| Handlers.UpdateName | controllers/category.js:49-75 | 500, then 400 not found, then 400 "Nothing to update." when the name is equal, then 500 on save, all with the store unchanged; success exactly otherwise; on success only that category changes: the new name, one log entry with the actor's id, name and time, everything else as before; status 200 |
| Handlers.Remove | controllers/category.js:77-91 | 500 on a lookup error, then 404 when the category is missing; otherwise the id leaves the store, every other category stays, and the response carries the deleted category with title "Deleted!" |
| Handlers.GetSpec | controllers/category.js:93-111 | 500, then 400 "Category not found.", then 400 "Specification not found."; otherwise 200 with the first spec whose id matches |
| Handlers.AddSpecs | controllers/category.js:113-130 | 500, then 400 not found, then 500 on save, store unchanged; otherwise the new spec is appended at the end, the earlier specs stay in order, the log and all other fields are untouched; status 200 |
| Handlers.UpdateSpecs | controllers/category.js:132-168 | 500, then 400 category not found, then 404 spec not found, then 400 "Nothing to update." when the name and the options (in order) are equal, then 500 on save, store unchanged in each case; on success only the first matching spec gets the new name and options, with the length, the order and every other spec kept, and the log grows by one actor entry; status 200 |
| Handlers.RemoveSpecs | controllers/category.js:170-197 | 500, then 400 category not found, then 404 spec not found, then 500 on save, store unchanged; on success exactly the first matching spec is removed, the others keep their order, the log grows by one actor entry; status 200 |
| Controller.CategoryController.Create | controllers/category.js:4-22 | the in-place handler builds and inserts the document exactly as `Handlers.Create` specifies |
| Controller.CategoryController.GetAll | controllers/category.js:24-32 | answers exactly as `Handlers.GetAll` |
| Controller.CategoryController.GetByID | controllers/category.js:34-47 | answers exactly as `Handlers.GetByID` |
| Controller.CategoryController.UpdateName | controllers/category.js:49-75 | the field assignment and the log push leave the store and response that `Handlers.UpdateName` specifies |
| Controller.CategoryController.Remove | controllers/category.js:77-91 | find-and-delete leaves the store and response that `Handlers.Remove` specifies |
| Controller.CategoryController.GetSpec | controllers/category.js:93-111 | answers exactly as `Handlers.GetSpec` |
| Controller.CategoryController.AddSpecs | controllers/category.js:113-130 | the push onto `specs` leaves the store and response that `Handlers.AddSpecs` specifies |
| Controller.CategoryController.UpdateSpecs | controllers/category.js:132-168 | the two field writes at the found index and the log push leave the store and response that `Handlers.UpdateSpecs` specifies |
| Controller.CategoryController.RemoveSpecs | controllers/category.js:170-197 | the splice and the log push leave the store and response that `Handlers.RemoveSpecs` specifies |
| Render.SpecNames | controllers/category.js:208 | the names of the specs, one per spec, in order |
| Render.DisplayedStamp | controllers/category.js:209 | the first log entry when the log is non-empty, else the `created` record |
| Render.Project | controllers/category.js:204-210 | id, name and status copied; `specs` is null exactly when the category has no specs, and is otherwise the spec names in order; `updated` is the formatted date of the first log entry, or of `created` when the log is empty |
| Render.ProjectAll | controllers/category.js:203-211 | one view per category, in the listing's order |
| Render.RenderCategoryList | controllers/category.js:199-217 | a store error is forwarded to the next handler; otherwise the "category" template is rendered with one projected view per listed category, in order |
| Properties.StepFailureKeepsStore | controllers/category.js:4-197 | whatever the request, a failed response leaves the store unchanged |
| Properties.StepLogsGrow | controllers/category.js:4-197 | no request drops or rewrites an entry of an existing category's audit log |
| Properties.StepKeepsValid | controllers/category.js:4-197 | every request keeps documents under their own ids and spec ids distinct, provided the generated spec id is new |
| Properties.RunKeepsHistory | controllers/category.js:49-197 | over any sequence of requests that does not delete a category, the category stays, keeps its `created` record, and its old log is a prefix of its new one |
| Properties.RunKeepsValid | controllers/category.js:4-197 | over any sequence of requests with freshly generated spec ids, the store stays valid |
| Properties.CreateThenGetByID | controllers/category.js:4-47 | a created category is fetched by its id as it was created |
| Properties.UpdateNameThenGetByID | controllers/category.js:34-75 | after a rename, fetching gives the new name and one more log entry |
| Properties.UpdateNameTwice | controllers/category.js:58-60 | repeating a rename changes nothing and, after a success, is rejected with 400 "Nothing to update." |
| Properties.AddSpecsThenGetSpec | controllers/category.js:93-130 | a spec added under a new id is fetched back with its name and options |
| Properties.UpdateSpecsTwice | controllers/category.js:146-150 | repeating a successful spec update is rejected with 400 "Nothing to update." and changes nothing |
| Properties.UpdateSpecsReorderedOptions | controllers/category.js:148 | the same options in a different order count as a change: the update succeeds and appends one log entry |
| Properties.RemoveSpecsRemovesOnlyThatSpec | controllers/category.js:179-184 | with distinct ids, after removal no spec has the id, `getSpec` answers 400, and exactly the one spec left the multiset |
| Properties.RemoveThenGetByID | controllers/category.js:34-91 | a removed category is no longer found (400), and removing it again answers 404 |
| Properties.DisplayedDateIgnoresLaterUpdates | controllers/category.js:209 | once a category's log is non-empty, no later request changes the date the list shows for it |
| Properties.RunKeepsDisplayedDate | controllers/category.js:209 | over any sequence of requests that never deletes the category, the date the list shows for an already updated category stays the same |

## Left out

- `renderHandleView` (lines 219-245) is routing and template plumbing. It chooses a form, stringifies ids and options, and falls through to the next handler on error. It states nothing beyond that.
- Persistence is not modelled: the Mongoose calls `save`, `find`, `findOne` and `findOneAndDelete`. The store is a map, and each call's failure is the `Fault` parameter.
- Id generation is not modelled: new category ids and spec ids are parameters. Casting a malformed id string raises in the lookup, and the model covers that only as `LookupFault`.
- Category ids in requests are taken in the exact lower-case hex form the store holds. The lookups convert the request string to an ObjectId before comparing, so another spelling of the same id (upper-case hex, say) still finds the document. The model's `categoryId in store` matches the exact string only and does not capture that case-insensitive match.
- `Date.now()` is the `now` parameter. `formatDate` comes from a module that is not part of this model, so it is a parameter of type `Time -> string`.
- Schema defaults for `created.datetime` and `actived` are not visible in the controller, so they are the `createdAt` and `actived` parameters of `Create`. Schema validation is modelled only as a `SaveFault`.
- The listing order is not modelled. The store is a map: `GetAll` returns the whole map, and `RenderCategoryList` takes the ordered listing as a parameter.
- Request bodies are taken as well-typed: names and ids are strings and options are lists of strings. Missing fields (`undefined`) and other JSON value types are not modelled. For lists of strings, comparing two option lists with `JSON.stringify` is element-wise, order-sensitive equality, which the model uses.
- Render.Project: takes the stored id as it is. The `.toString().trim()` of line 205 is not modelled, because ids are already strings. Each `{ name }` spec object is represented by the name alone.
- The error logging of line 165 is a side effect only.
- Concurrency is not modelled: the requests are sequential. The race between concurrent fetch-then-save cycles on one category is not captured.
- Response rendering is not modelled: the `res.status(...).json(...)` serialisation and the `res.render` template output.
