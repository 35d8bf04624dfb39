/** The documents of the "categories" collection and the invariants the store keeps. */
module CategoryData {

  datatype Option<+T> = None | Some(value: T)

  /**
   * Document identifiers as strings. Spec ids are compared as strings, as the handlers do;
   * category ids are taken in the exact form the store holds them (its lower-case hex).
   */
  type Id = string

  /** Milliseconds since the epoch, as the clock reports them. */
  type Time = int

  /** The authenticated user the request runs for. */
  datatype Actor = Actor(id: string, name: string)

  /** An audit record: who acted, and when. */
  datatype Stamp = Stamp(actorId: string, actorName: string, datetime: Time)

  /** A specification embedded in its category: a name and an ordered list of option values. */
  datatype Spec = Spec(id: Id, name: string, options: seq<string>)

  /** A category document. `updated` is the append-only audit log. */
  datatype Category = Category(
    id: Id,
    name: string,
    created: Stamp,
    updated: seq<Stamp>,
    actived: bool,
    specs: seq<Spec>)

  /** The collection, keyed by document id. */
  type Store = map<Id, Category>

  /** No two specs of one category share an id. */
  ghost predicate UniqueSpecIds(specs: seq<Spec>) {
    forall i, j :: 0 <= i < j < |specs| ==> specs[i].id != specs[j].id
  }

  /** Every document is stored under its own id and keeps its spec ids distinct. */
  ghost predicate Valid(store: Store) {
    forall k :: k in store ==> store[k].id == k && UniqueSpecIds(store[k].specs)
  }

  /** Every category present before and after kept its old log as a prefix of its new one. */
  ghost predicate LogsGrow(before: Store, after: Store) {
    forall k :: k in before && k in after ==> before[k].updated <= after[k].updated
  }

  /** `after` differs from `before` at most in the document stored under `k`. */
  ghost predicate OnlyChanged(before: Store, after: Store, k: Id) {
    && after.Keys == before.Keys
    && forall k' :: k' in before && k' != k ==> after[k'] == before[k']
  }
}
