module Refinement {
  // Every step of the packed, wrapping, interleaved protocol is a step of the simple machine.

  import opened Words
  import opened Protocol
  import opened ProtocolInvariant
  import opened ProtocolTheorems
  import Spec = SnapshotSpec

  function StatusOf(life: Life): Spec.Status {
    match life
    case Private => Spec.Fresh
    case Offered(_) => Spec.Fresh
    case Published(_) => Spec.Current
    case Unlinked(_) => Spec.Retired
    case Detached => Spec.Retired
    case Doomed(_) => Spec.Retired
    case Claimed(_) => Spec.Retired
    case Discarded(_) => Spec.Discarded
    case Destroyed(_) => Spec.Destroyed
    case Gone => Spec.Destroyed
  }

  function HoldersOf(holds: map<nat, Hold>): map<nat, nat> {
    map k | k in holds :: holds[k].inc
  }

  function StatusesOf(versions: seq<Version>): seq<Spec.Status> {
    seq(|versions|, i requires 0 <= i < |versions| => StatusOf(versions[i].life))
  }

  function Abstract(s: State): Spec.Snapshot {
    Spec.Snapshot(s.current, HoldersOf(s.holds), StatusesOf(s.versions))
  }

  /** What a step means to a client.  The success of a compare-exchange is read off the words that
      the code compares, not off the history. */
  function ActionOf(s: State, e: Event): Spec.Action
    requires Inv(s) && Enabled(s, e)
  {
    match e
    case Make(_) => Spec.Make
    case Acquire(slot, hold) =>
      Spec.Acquire(slot, hold, if s.control[slot].lo == HANDLE_NULL then None else s.current[slot])
    case Release(_, hold) => Spec.Release(hold)
    case ExchangeSwap(t) => Spec.Replace(s.pcs[t].slot, s.pcs[t].offer)
    case CompareLoad(t) => CompareAction(s, e)
    case CompareCas(t, _) => CompareAction(s, e)
    case FreeVersion(_, inc) => Spec.Discard(inc)
    case RunCallback(t) => Spec.Destroy(s.pcs[t].inc)
    case _ => Spec.Internal
  }

  function CompareAction(s: State, e: Event): Spec.Action
    requires Inv(s) && Enabled(s, e) && (e.CompareLoad? || e.CompareCas?)
  {
    CompareWithoutAba(s, e);
    var pc := s.pcs[e.t];
    if CompareSucceeds(s, e) then Spec.CompareReplace(pc.slot, ExpectedInc(s, pc), pc.offer)
    else if CompareReturnsFalse(s, e) then Spec.CompareMismatch(pc.slot, ExpectedInc(s, pc))
    else Spec.Internal
  }

  lemma AcquireRefines(s: State, slot: nat, hold: nat)
    requires Inv(s) && CanAcquire(s, slot, hold)
    ensures Spec.Next(Abstract(s),
      Spec.Acquire(slot, hold, if s.control[slot].lo == HANDLE_NULL then None else s.current[slot]),
      Abstract(DoAcquire(s, slot, hold)))
  {
    var s' := DoAcquire(s, slot, hold);
    assert SlotOk(s, slot);
    assert StatusesOf(s'.versions) == StatusesOf(s.versions);
    if s.current[slot].Some? {
      assert VersionOk(s, s.current[slot].value);
      assert HoldersOf(s'.holds) == HoldersOf(s.holds)[hold := s.current[slot].value];
    }
  }

  lemma ReleaseRefines(s: State, t: nat, hold: nat)
    requires Inv(s) && CanRelease(s, t, hold)
    ensures Spec.Next(Abstract(s), Spec.Release(hold), Abstract(DoRelease(s, t, hold)))
  {
    var s' := DoRelease(s, t, hold);
    var i := s.holds[hold].inc;
    HeldLife(s, hold);
    assert VersionOk(s, i);
    ReleasedWord(s.versions[i], Outstanding(s, i));
    assert StatusesOf(s'.versions) == StatusesOf(s.versions);
    assert HoldersOf(s'.holds) == HoldersOf(s.holds) - {hold};
  }

  lemma SwapRefines(s: State, t: nat)
    requires Inv(s) && CanSwap(s, t)
    ensures Spec.CanReplace(Abstract(s), s.pcs[t].slot, s.pcs[t].offer)
    ensures Abstract(Swapped(s, t)) == Spec.Replaced(Abstract(s), s.pcs[t].slot, s.pcs[t].offer)
  {
    var a, a' := Abstract(s), Abstract(Swapped(s, t));
    var x, offer := s.pcs[t].slot, s.pcs[t].offer;
    if offer.Some? { assert VersionOk(s, offer.value); }
    if s.current[x].Some? { assert VersionOk(s, s.current[x].value); }
    assert a'.status == Spec.Install(Spec.Retire(a.status, a.current[x]), offer);
  }

  lemma CallbackRefines(s: State, t: nat)
    requires Inv(s) && AtPc(s, t) && s.pcs[t].Calling?
    ensures Spec.Next(Abstract(s), Spec.Destroy(s.pcs[t].inc), Abstract(DoRunCallback(s, t)))
  {
    var s' := DoRunCallback(s, t);
    var i := s.pcs[t].inc;
    assert PcOk(s, t) && VersionOk(s, i);
    forall k | k in s.holds ensures s.holds[k].inc != i { HeldLife(s, k); }
    forall x | 0 <= x < |s.current| ensures s.current[x] != Some(i) { assert SlotOk(s, x); }
    assert StatusesOf(s'.versions) == StatusesOf(s.versions)[i := Spec.Destroyed];
  }

  /** A change of lives within the same status is invisible. */
  lemma SameStatuses(versions: seq<Version>, versions': seq<Version>)
    requires |versions'| == |versions|
    requires forall i :: 0 <= i < |versions| ==> StatusOf(versions'[i].life) == StatusOf(versions[i].life)
    ensures StatusesOf(versions') == StatusesOf(versions)
  {
  }

  lemma InternalRefines(s: State, e: Event)
    requires Inv(s) && Enabled(s, e)
    requires || e.ExchangeBegin? || e.CompareBegin? || e.DetachLoad? || e.DetachCas?
             || e.ClaimFinal? || e.EnterFree? || e.Clobber?
    ensures Abstract(Apply(s, e)) == Abstract(s)
  {
    if e.DetachLoad? || e.DetachCas? || e.ClaimFinal? || e.EnterFree? {
      assert PcOk(s, e.t);
      assert VersionOk(s, s.pcs[e.t].inc);
    }
    SameStatuses(s.versions, Apply(s, e).versions);
  }

  lemma CompareFailRefines(s: State, t: nat)
    requires Inv(s) && AtPc(s, t) && (s.pcs[t].CompareReady? || s.pcs[t].CompareLoop?)
    ensures Abstract(CompareFails(s, t, s.pcs[t].offer)) == Abstract(s)
  {
    assert PcOk(s, t);
    SameStatuses(s.versions, CompareFails(s, t, s.pcs[t].offer).versions);
  }

  lemma CompareRefines(s: State, e: Event)
    requires Inv(s) && Enabled(s, e) && (e.CompareLoad? || e.CompareCas?)
    ensures Spec.Next(Abstract(s), CompareAction(s, e), Abstract(Apply(s, e)))
  {
    assert PcOk(s, e.t);
    CompareWithoutAba(s, e);
    if CompareSucceeds(s, e) {
      SwapKeeps(s, e.t);
      SwapRefines(s, e.t);
    } else if CompareReturnsFalse(s, e) {
      CompareFailRefines(s, e.t);
    }
  }

  lemma MakeRefines(s: State, addr: U32)
    ensures Spec.Next(Abstract(s), Spec.Make, Abstract(DoMake(s, addr)))
  {
    assert StatusesOf(DoMake(s, addr).versions) == StatusesOf(s.versions) + [Spec.Fresh];
  }

  lemma DiscardRefines(s: State, t: nat, inc: nat)
    requires CanFree(s, t, inc)
    ensures Spec.Next(Abstract(s), Spec.Discard(inc), Abstract(DoFreeVersion(s, t, inc)))
  {
    assert StatusesOf(DoFreeVersion(s, t, inc).versions) == StatusesOf(s.versions)[inc := Spec.Discarded];
  }

  /** Refinement, step by step: each step of the protocol is the action that a client sees. */
  lemma StepRefines(s: State, e: Event)
    requires Inv(s) && Enabled(s, e)
    ensures Spec.Next(Abstract(s), ActionOf(s, e), Abstract(Apply(s, e)))
  {
    match e
    case Make(addr) => MakeRefines(s, addr);
    case Acquire(slot, hold) => AcquireRefines(s, slot, hold);
    case Release(t, hold) => ReleaseRefines(s, t, hold);
    case ExchangeSwap(t) => SwapKeeps(s, t); SwapRefines(s, t);
    case CompareLoad(_) => CompareRefines(s, e);
    case CompareCas(_, _) => CompareRefines(s, e);
    case FreeVersion(t, inc) => DiscardRefines(s, t, inc);
    case RunCallback(t) => CallbackRefines(s, t);
    case _ => InternalRefines(s, e);
  }

  /** Refinement of whole runs: the abstraction of every run is a run of the simple machine that
      starts empty, and no holder or slot of it ever sees a destroyed version. */
  lemma RunRefines(states: seq<State>, events: seq<Event>)
    requires IsRun(states, events)
    requires forall k :: 0 <= k < |states| ==> NeverReadsZero(states[k])
    ensures Spec.IsEmpty(Abstract(states[0]))
    ensures forall k :: 0 <= k < |states| ==> Inv(states[k]) && Spec.Intact(Abstract(states[k]))
    ensures forall k :: 0 <= k < |events| ==>
      Spec.Next(Abstract(states[k]), ActionOf(states[k], events[k]), Abstract(states[k + 1]))
  {
    forall k | 0 <= k < |states| ensures Inv(states[k]) { RunInv(states, events, k); }
    forall k | 0 <= k < |events|
      ensures Spec.Next(Abstract(states[k]), ActionOf(states[k], events[k]), Abstract(states[k + 1]))
    {
      StepRefines(states[k], events[k]);
    }
    forall k | 0 <= k < |states| ensures Spec.Intact(Abstract(states[k])) { RunIntact(states, events, k); }
  }

  /** Because the simple machine keeps what it refers to intact. */
  lemma {:induction false} RunIntact(states: seq<State>, events: seq<Event>, k: nat)
    requires IsRun(states, events) && k < |states|
    requires forall j :: 0 <= j < |states| ==> Inv(states[j])
    ensures Spec.Intact(Abstract(states[k]))
    decreases k
  {
    if k > 0 {
      RunIntact(states, events, k - 1);
      StepRefines(states[k - 1], events[k - 1]);
      Spec.NextKeepsIntact(Abstract(states[k - 1]), ActionOf(states[k - 1], events[k - 1]), Abstract(states[k]));
    }
  }
}
