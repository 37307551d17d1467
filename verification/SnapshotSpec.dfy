module SnapshotSpec {
  // The simple machine that the library is meant to be: one current version per slot, a set
  // of holders per version, and payloads destroyed only when nobody can use them any more.
  // It has no counters, no flags, no handles and no threads.

  import opened Words

  datatype Status = Fresh | Current | Retired | Discarded | Destroyed

  datatype Snapshot = Snapshot(
    current: seq<Option<nat>>,
    holders: map<nat, nat>,       // hold -> version
    status: seq<Status>)

  datatype Action =
    | Make
    | Acquire(slot: nat, hold: nat, result: Option<nat>)
    | Release(hold: nat)
    | Replace(slot: nat, with: Option<nat>)
    | CompareReplace(slot: nat, expected: Option<nat>, with: Option<nat>)
    | CompareMismatch(slot: nat, expected: Option<nat>)
    | Discard(version: nat)
    | Destroy(version: nat)
    | Internal

  function Retire(status: seq<Status>, i: Option<nat>): seq<Status> {
    if i.Some? && i.value < |status| then status[i.value := Retired] else status
  }

  function Install(status: seq<Status>, i: Option<nat>): seq<Status> {
    if i.Some? && i.value < |status| then status[i.value := Current] else status
  }

  predicate CanReplace(a: Snapshot, slot: nat, with: Option<nat>) {
    slot < |a.current| && (with.Some? ==> with.value < |a.status| && a.status[with.value].Fresh?)
  }

  function Replaced(a: Snapshot, slot: nat, with: Option<nat>): Snapshot
    requires slot < |a.current|
  {
    a.(current := a.current[slot := with], status := Install(Retire(a.status, a.current[slot]), with))
  }

  predicate Next(a: Snapshot, act: Action, a': Snapshot) {
    match act
    case Make => a' == a.(status := a.status + [Fresh])
    case Acquire(slot, hold, result) =>
      && slot < |a.current| && hold !in a.holders && result == a.current[slot]
      && a' == if result.None? then a else a.(holders := a.holders[hold := result.value])
    case Release(hold) => hold in a.holders && a' == a.(holders := a.holders - {hold})
    case Replace(slot, with) => CanReplace(a, slot, with) && a' == Replaced(a, slot, with)
    case CompareReplace(slot, expected, with) =>
      CanReplace(a, slot, with) && a.current[slot] == expected && a' == Replaced(a, slot, with)
    case CompareMismatch(slot, expected) => slot < |a.current| && a.current[slot] != expected && a' == a
    case Discard(i) => i < |a.status| && a.status[i].Fresh? && a' == a.(status := a.status[i := Discarded])
    case Destroy(i) =>
      && i < |a.status| && (a.status[i].Retired? || a.status[i].Discarded?)
      && (forall k :: k in a.holders ==> a.holders[k] != i)
      && (forall x :: 0 <= x < |a.current| ==> a.current[x] != Some(i))
      && a' == a.(status := a.status[i := Destroyed])
    case Internal => a' == a
  }

  /** No versions, no holders, every slot empty. */
  predicate IsEmpty(a: Snapshot) {
    a.holders == map[] && a.status == [] && forall x :: 0 <= x < |a.current| ==> a.current[x] == None
  }

  /** Every holder and every slot refers to a version whose payload is intact. */
  predicate Intact(a: Snapshot) {
    && (forall k :: k in a.holders ==>
          a.holders[k] < |a.status| && (a.status[a.holders[k]].Current? || a.status[a.holders[k]].Retired?))
    && (forall x :: 0 <= x < |a.current| && a.current[x].Some? ==>
          a.current[x].value < |a.status| && a.status[a.current[x].value].Current?)
    && (forall x, y :: 0 <= x < y < |a.current| && a.current[x].Some? ==> a.current[x] != a.current[y])
  }

  /** The simple machine never lets a holder or a slot see a destroyed version. */
  lemma NextKeepsIntact(a: Snapshot, act: Action, a': Snapshot)
    requires Intact(a) && Next(a, act, a')
    ensures Intact(a')
  {
    if act.Replace? || act.CompareReplace? {
      ReplacedKeepsIntact(a, act.slot, act.with);
    }
  }

  lemma ReplacedKeepsIntact(a: Snapshot, slot: nat, with: Option<nat>)
    requires Intact(a) && CanReplace(a, slot, with)
    ensures Intact(Replaced(a, slot, with))
  {
  }
}
