/**
 * The handlers as one sequential state machine over the store, and properties that relate
 * several requests: what a later request sees of an earlier one, the invariants every
 * request keeps, and what the category list shows after an update.
 */
module Properties {
  import opened CategoryData
  import opened SpecList
  import opened Handlers
  import opened Render

  /** A request to one of the JSON handlers, with the values the store generates for it. */
  datatype Request =
    | CreateReq(createdAt: Time, actived: bool, newId: Id, name: string)
    | GetAllReq
    | GetByIDReq(categoryId: Id)
    | UpdateNameReq(categoryId: Id, name: string)
    | RemoveReq(categoryId: Id)
    | GetSpecReq(categoryId: Id, specId: Id)
    | AddSpecsReq(categoryId: Id, newSpecId: Id, name: string, options: seq<string>)
    | UpdateSpecsReq(categoryId: Id, specId: Id, name: string, options: seq<string>)
    | RemoveSpecsReq(categoryId: Id, specId: Id)

  /** One request as it reaches the controller: who sends it, the clock, and whether the store raises. */
  datatype Call = Call(actor: Actor, now: Time, fault: Fault, request: Request)

  /** The handler the request is routed to. */
  function Step(store: Store, call: Call): Outcome {
    var Call(actor, now, fault, req) := call;
    match req
    case CreateReq(createdAt, actived, newId, name) => Create(store, actor, createdAt, actived, fault, newId, name)
    case GetAllReq => Outcome(store, GetAll(store, fault))
    case GetByIDReq(categoryId) => Outcome(store, GetByID(store, fault, categoryId))
    case UpdateNameReq(categoryId, name) => UpdateName(store, actor, now, fault, categoryId, name)
    case RemoveReq(categoryId) => Remove(store, fault, categoryId)
    case GetSpecReq(categoryId, specId) => Outcome(store, GetSpec(store, fault, categoryId, specId))
    case AddSpecsReq(categoryId, newSpecId, name, options) => AddSpecs(store, fault, categoryId, newSpecId, name, options)
    case UpdateSpecsReq(categoryId, specId, name, options) =>
      UpdateSpecs(store, actor, now, fault, categoryId, specId, name, options)
    case RemoveSpecsReq(categoryId, specId) => RemoveSpecs(store, actor, now, fault, categoryId, specId)
  }

  /** The store after serving the calls one after another. */
  function Run(store: Store, calls: seq<Call>): Store
    decreases |calls|
  {
    if calls == [] then store else Run(Step(store, calls[0]).store, calls[1..])
  }

  /** The store generates a spec id that its category does not hold yet. */
  ghost predicate GeneratedIdFresh(store: Store, call: Call) {
    match call.request
    case AddSpecsReq(categoryId, newSpecId, _, _) =>
      categoryId in store ==> FindIndex(store[categoryId].specs, newSpecId) == -1
    case _ => true
  }

  /** The call deletes the category stored under `k`, if it succeeds. */
  predicate Deletes(call: Call, k: Id) {
    call.request.RemoveReq? && call.request.categoryId == k
  }

  /** A failed request leaves the store as it was. */
  lemma StepFailureKeepsStore(store: Store, call: Call)
    ensures !Step(store, call).response.success ==> Step(store, call).store == store
  {
  }

  /** No request shortens or rewrites the audit log of a category it leaves in the store. */
  lemma StepLogsGrow(store: Store, call: Call)
    ensures LogsGrow(store, Step(store, call).store)
  {
    var o := Step(store, call);
    forall k | k in store && k in o.store ensures store[k].updated <= o.store[k].updated {
      match call.request
      case CreateReq(_, _, _, _) =>
      case UpdateNameReq(_, _) =>
      case RemoveReq(_) =>
      case AddSpecsReq(_, _, _, _) =>
      case UpdateSpecsReq(_, _, _, _) =>
      case RemoveSpecsReq(_, _) =>
      case _ =>
    }
  }

  /** Every request keeps the store valid, given a fresh generated spec id. */
  lemma StepKeepsValid(store: Store, call: Call)
    requires Valid(store) && GeneratedIdFresh(store, call)
    ensures Valid(Step(store, call).store)
  {
    var o := Step(store, call);
    if o.response.success {
      match call.request
      case CreateReq(_, _, _, _) =>
      case UpdateNameReq(_, _) =>
      case RemoveReq(_) =>
      case AddSpecsReq(categoryId, newSpecId, name, options) =>
        AppendFreshKeepsUnique(store[categoryId].specs, Spec(newSpecId, name, options));
        assert o.store[categoryId].specs == store[categoryId].specs + [Spec(newSpecId, name, options)];
      case UpdateSpecsReq(categoryId, specId, name, options) =>
        var specs := store[categoryId].specs;
        OverwriteKeepsUnique(specs, FindIndex(specs, specId), name, options);
      case RemoveSpecsReq(categoryId, specId) =>
        var specs := store[categoryId].specs;
        RemoveAtKeepsUnique(specs, FindIndex(specs, specId));
      case _ =>
    } else {
      StepFailureKeepsStore(store, call);
    }
  }

  /**
   * A category that no call deletes stays in the store, and its audit log only grows:
   * earlier entries are never dropped or rewritten.
   */
  lemma {:induction false} RunKeepsHistory(store: Store, calls: seq<Call>, k: Id)
    requires k in store
    requires forall i :: 0 <= i < |calls| ==> !Deletes(calls[i], k)
    ensures k in Run(store, calls)
    ensures store[k].updated <= Run(store, calls)[k].updated
    ensures store[k].created == Run(store, calls)[k].created
    decreases |calls|
  {
    if calls != [] {
      var next := Step(store, calls[0]).store;
      StepLogsGrow(store, calls[0]);
      assert !Deletes(calls[0], k);
      assert k in next && next[k].created == store[k].created by {
        match calls[0].request
        case RemoveReq(_) =>
        case CreateReq(_, _, newId, _) =>
        case _ =>
      }
      assert forall i :: 0 <= i < |calls[1..]| ==> calls[1..][i] == calls[i + 1];
      RunKeepsHistory(next, calls[1..], k);
    }
  }

  /** Served one after another, calls that each get a fresh spec id keep the store valid. */
  lemma {:induction false} RunKeepsValid(store: Store, calls: seq<Call>)
    requires Valid(store)
    requires forall i :: 0 <= i < |calls| ==> GeneratedIdFresh(Run(store, calls[..i]), calls[i])
    ensures Valid(Run(store, calls))
    decreases |calls|
  {
    if calls != [] {
      assert calls[..0] == [];
      StepKeepsValid(store, calls[0]);
      var next := Step(store, calls[0]).store;
      forall i | 0 <= i < |calls[1..]|
        ensures GeneratedIdFresh(Run(next, calls[1..][..i]), calls[1..][i])
      {
        assert calls[..i + 1][1..] == calls[1..][..i];
        assert calls[..i + 1][0] == calls[0];
      }
      RunKeepsValid(next, calls[1..]);
    }
  }

  /** A created category can be fetched by its id, as it was created. */
  lemma CreateThenGetByID(store: Store, actor: Actor, createdAt: Time, actived: bool, newId: Id, name: string)
    requires newId !in store
    ensures var o := Create(store, actor, createdAt, actived, NoFault, newId, name);
      && o.response.success
      && GetByID(o.store, NoFault, newId) == Response(200, true, None, None, OneCategory(o.response.body.category))
      && o.response.body.category.name == name
  {
  }

  /** After a rename, fetching the category shows the new name and one more log entry. */
  lemma UpdateNameThenGetByID(store: Store, actor: Actor, now: Time, categoryId: Id, name: string)
    requires categoryId in store && store[categoryId].name != name
    ensures var got := GetByID(UpdateName(store, actor, now, NoFault, categoryId, name).store, NoFault, categoryId);
      && got.success
      && got.body.category.name == name
      && |got.body.category.updated| == |store[categoryId].updated| + 1
  {
  }

  /** A renamed category cannot be renamed to the same name again: the second request is a no-op. */
  lemma UpdateNameTwice(store: Store, actor: Actor, now: Time, later: Time, categoryId: Id, name: string)
    ensures var once := UpdateName(store, actor, now, NoFault, categoryId, name);
      UpdateName(once.store, actor, later, NoFault, categoryId, name).store == once.store
      && (once.response.success ==>
          UpdateName(once.store, actor, later, NoFault, categoryId, name).response == Failure(400, NothingToUpdate))
  {
  }

  /** A spec added under a fresh id is found again under that id, with its name and options. */
  lemma AddSpecsThenGetSpec(store: Store, categoryId: Id, newSpecId: Id, name: string, options: seq<string>)
    requires categoryId in store && FindIndex(store[categoryId].specs, newSpecId) == -1
    ensures var added := AddSpecs(store, NoFault, categoryId, newSpecId, name, options);
      && added.response.success
      && GetSpec(added.store, NoFault, categoryId, newSpecId)
           == Response(200, true, None, None, OneSpec(Spec(newSpecId, name, options)))
  {
  }

  /** Sending the same successful spec update twice: the second is rejected as a no-op and changes nothing. */
  lemma UpdateSpecsTwice(store: Store, actor: Actor, now: Time, later: Time, categoryId: Id, specId: Id,
                         name: string, options: seq<string>)
    requires UpdateSpecs(store, actor, now, NoFault, categoryId, specId, name, options).response.success
    ensures var once := UpdateSpecs(store, actor, now, NoFault, categoryId, specId, name, options);
      UpdateSpecs(once.store, actor, later, NoFault, categoryId, specId, name, options)
        == Rejected(once.store, 400, NothingToUpdate)
  {
  }

  /** Options with the same values in another order are a change: the update goes through. */
  lemma UpdateSpecsReorderedOptions(store: Store, actor: Actor, now: Time, categoryId: Id, specId: Id, options: seq<string>)
    requires categoryId in store
    requires var specs := store[categoryId].specs;
      FindIndex(specs, specId) != -1
      && multiset(options) == multiset(specs[FindIndex(specs, specId)].options)
      && options != specs[FindIndex(specs, specId)].options
    ensures var spec := store[categoryId].specs[FindIndex(store[categoryId].specs, specId)];
      var o := UpdateSpecs(store, actor, now, NoFault, categoryId, specId, spec.name, options);
      && o.response.success
      && |o.store[categoryId].updated| == |store[categoryId].updated| + 1
  {
  }

  /**
   * With distinct spec ids, removing a spec removes exactly that spec: no spec with its id
   * is left, and the others keep their order.
   */
  lemma RemoveSpecsRemovesOnlyThatSpec(store: Store, actor: Actor, now: Time, categoryId: Id, specId: Id)
    requires Valid(store)
    requires RemoveSpecs(store, actor, now, NoFault, categoryId, specId).response.success
    ensures var after := RemoveSpecs(store, actor, now, NoFault, categoryId, specId).store[categoryId].specs;
      && FindIndex(after, specId) == -1
      && GetSpec(RemoveSpecs(store, actor, now, NoFault, categoryId, specId).store, NoFault, categoryId, specId)
           == Failure(400, SpecNotFound)
      && multiset(after) + multiset{store[categoryId].specs[FindIndex(store[categoryId].specs, specId)]}
           == multiset(store[categoryId].specs)
  {
  }

  /** A removed category can no longer be fetched, and removing it again answers 404. */
  lemma RemoveThenGetByID(store: Store, categoryId: Id)
    requires categoryId in store
    ensures var gone := Remove(store, NoFault, categoryId).store;
      && GetByID(gone, NoFault, categoryId) == Failure(400, CategoryNotFound)
      && Remove(gone, NoFault, categoryId) == Rejected(gone, 404, CategoryNotFound)
  {
  }

  /**
   * The list shows the date of the FIRST entry of the log: once a category has been updated,
   * later updates append after that entry and the date shown no longer changes.
   */
  lemma DisplayedDateIgnoresLaterUpdates(store: Store, call: Call, k: Id, formatDate: Time -> string)
    requires k in store && store[k].updated != []
    requires k in Step(store, call).store
    ensures Project(Step(store, call).store[k], formatDate).updated == Project(store[k], formatDate).updated
  {
    StepLogsGrow(store, call);
    assert store[k].updated <= Step(store, call).store[k].updated;
  }

  /**
   * Over any sequence of requests that does not delete the category, the date the list
   * shows for an already updated category stays the same.
   */
  lemma RunKeepsDisplayedDate(store: Store, calls: seq<Call>, k: Id, formatDate: Time -> string)
    requires k in store && store[k].updated != []
    requires forall i :: 0 <= i < |calls| ==> !Deletes(calls[i], k)
    ensures k in Run(store, calls)
    ensures Project(Run(store, calls)[k], formatDate).updated == Project(store[k], formatDate).updated
  {
    RunKeepsHistory(store, calls, k);
  }
}
