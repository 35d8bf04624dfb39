/** The operations the handlers perform on a category's ordered `specs` sequence. */
module SpecList {
  import opened CategoryData

  /** The index of the first spec whose id is `specId`, or -1 when there is none. */
  function FindIndex(specs: seq<Spec>, specId: Id): (i: int)
    ensures -1 <= i < |specs|
    ensures i == -1 <==> forall j :: 0 <= j < |specs| ==> specs[j].id != specId
    ensures 0 <= i ==> specs[i].id == specId && forall j :: 0 <= j < i ==> specs[j].id != specId
  {
    if specs == [] then -1
    else if specs[0].id == specId then 0
    else
      var i := FindIndex(specs[1..], specId);
      assert forall j :: 1 <= j < |specs| ==> specs[j] == specs[1..][j - 1];
      if i == -1 then -1 else i + 1
  }

  /** The first spec whose id is `specId`, if any. */
  function Find(specs: seq<Spec>, specId: Id): (r: Option<Spec>)
    ensures r.None? <==> forall j :: 0 <= j < |specs| ==> specs[j].id != specId
    ensures r.Some? ==> r.value in specs && r.value.id == specId
  {
    if specs == [] then None
    else if specs[0].id == specId then Some(specs[0])
    else
      assert forall j :: 1 <= j < |specs| ==> specs[j] == specs[1..][j - 1];
      Find(specs[1..], specId)
  }

  /** Finding a spec and finding its index agree: `Find` returns the spec at `FindIndex`. */
  lemma {:induction false} FindIsAtFindIndex(specs: seq<Spec>, specId: Id)
    ensures Find(specs, specId) == if FindIndex(specs, specId) == -1 then None else Some(specs[FindIndex(specs, specId)])
  {
    if specs != [] && specs[0].id != specId {
      FindIsAtFindIndex(specs[1..], specId);
    }
  }

  /** Removing one element at index `i`: the elements before stay, the ones after move down by one. */
  function RemoveAt<T>(s: seq<T>, i: nat): (r: seq<T>)
    requires i < |s|
    ensures |r| == |s| - 1
    ensures forall j :: 0 <= j < i ==> r[j] == s[j]
    ensures forall j :: i <= j < |r| ==> r[j] == s[j + 1]
    ensures multiset(r) + multiset{s[i]} == multiset(s)
  {
    assert s == s[..i] + [s[i]] + s[i + 1..];
    s[..i] + s[i + 1..]
  }

  /** The spec at `i` takes a new name and new options and keeps its id; the others stay as they were. */
  function Overwrite(specs: seq<Spec>, i: nat, name: string, options: seq<string>): (r: seq<Spec>)
    requires i < |specs|
    ensures |r| == |specs|
    ensures r[i] == Spec(specs[i].id, name, options)
    ensures forall j :: 0 <= j < |specs| && j != i ==> r[j] == specs[j]
  {
    specs[i := specs[i].(name := name, options := options)]
  }

  /** With distinct ids, the first match is the only match. */
  lemma FindIndexOfUnique(specs: seq<Spec>, j: nat)
    requires UniqueSpecIds(specs) && j < |specs|
    ensures FindIndex(specs, specs[j].id) == j
  {
  }

  /** Appending a spec puts it last in the search order: earlier matches win. */
  lemma FindIndexAppend(specs: seq<Spec>, s: Spec, specId: Id)
    ensures FindIndex(specs + [s], specId) ==
      if FindIndex(specs, specId) != -1 then FindIndex(specs, specId)
      else if s.id == specId then |specs| else -1
  {
    var r := specs + [s];
    assert forall j :: 0 <= j < |specs| ==> r[j] == specs[j];
    var i, k := FindIndex(specs, specId), FindIndex(r, specId);
    if i != -1 {
      assert r[i].id == specId;
      assert k != -1 && k <= i;
      assert k < |specs| ==> specs[k].id == specId;
    } else if s.id == specId {
      assert r[|specs|].id == specId;
    }
  }

  /** Appending a spec whose id is new keeps the ids distinct. */
  lemma AppendFreshKeepsUnique(specs: seq<Spec>, s: Spec)
    requires UniqueSpecIds(specs) && FindIndex(specs, s.id) == -1
    ensures UniqueSpecIds(specs + [s])
  {
  }

  /** Removing a spec keeps the ids distinct, and none of the remaining specs has the removed id. */
  lemma RemoveAtKeepsUnique(specs: seq<Spec>, i: nat)
    requires UniqueSpecIds(specs) && i < |specs|
    ensures UniqueSpecIds(RemoveAt(specs, i))
    ensures FindIndex(RemoveAt(specs, i), specs[i].id) == -1
  {
  }

  /** Overwriting a spec keeps every id, so the ids stay distinct. */
  lemma OverwriteKeepsUnique(specs: seq<Spec>, i: nat, name: string, options: seq<string>)
    requires UniqueSpecIds(specs) && i < |specs|
    ensures UniqueSpecIds(Overwrite(specs, i, name, options))
  {
  }
}
