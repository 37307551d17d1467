module SystemTheorems {
  // The whole library can always go on, lets a client that keeps the rules begin its calls, and refines
  // the simple machine.

  import opened Words
  import opened Handles
  import P = Protocol
  import PI = ProtocolInvariant
  import PT = ProtocolTheorems
  import A = Allocator
  import AI = AllocatorInvariant
  import AT = AllocatorTheorems
  import R = Refinement
  import Spec = SnapshotSpec
  import opened System

  predicate InsideCall(s: State, t: nat) {
    t < |s.p.pcs| == |s.a.pcs| && !(s.p.pcs[t].Idle? && s.a.pcs[t].Idle?)
  }

  /** The next step of a thread inside a call. */
  function NextStep(s: State, t: nat): Event
    requires InsideCall(s, t)
  {
    if s.p.pcs[t].Freeing? then EnterFree(t)
    else if !s.p.pcs[t].Idle? then ProtocolStep(PT.NextStep(s.p, t))
    else if s.a.pcs[t].Got? then MakeVersion(t)
    else if s.a.pcs[t].AllocDrop? || s.a.pcs[t].ExitDrop? then Reclaim(AT.NextStep(s.a, t), s.p.inner)
    else AllocatorStep(AT.NextStep(s.a, t))
  }

  lemma ProtocolGoesOn(s: State, t: nat)
    requires Inv(s) && InsideCall(s, t) && !s.p.pcs[t].Idle?
    ensures Enabled(s, NextStep(s, t))
  {
    assert OneCallAtATime(s, t) && PI.PcOk(s.p, t);
    PT.NeverStuck(s.p, t);
    if s.p.pcs[t].Freeing? { assert Housed(s, s.p.pcs[t].inc); }
  }

  lemma AllocatorGoesOn(s: State, t: nat)
    requires Inv(s) && InsideCall(s, t) && s.p.pcs[t].Idle?
    ensures Enabled(s, NextStep(s, t))
  {
    AT.NeverStuck(s.a, t);
  }

  /** No call of the library, through both machines, ever finds its next step impossible. */
  lemma NeverStuck(s: State, t: nat)
    requires Inv(s) && InsideCall(s, t)
    ensures Enabled(s, NextStep(s, t))
  {
    if s.p.pcs[t].Idle? { AllocatorGoesOn(s, t); } else { ProtocolGoesOn(s, t); }
  }

  lemma OfferReadable(s: State, offer: Option<nat>, handle: U32)
    requires Inv(s) && P.NewVersionOk(s.p, offer, handle)
    ensures CanOffer(s, offer) && OfferHandle(s, offer) == handle
  {
    if offer.Some? { SelfHandle(s, offer.value); }
  }

  /** A client that keeps the protocol's rules, outside any call, can begin an exchange, and the handle that
      the call reads is the one that the rules speak of. */
  lemma ExchangeCanBegin(s: State, t: nat, slot: nat, offer: Option<nat>, handle: U32)
    requires Inv(s) && OutsideAllocator(s, t) && P.CanExchange(s.p, t, slot, offer, handle)
    ensures Enabled(s, BeginExchange(t, slot, offer)) && OfferHandle(s, offer) == handle
  {
    OfferReadable(s, offer, handle);
  }

  lemma CompareCanBegin(s: State, t: nat, slot: nat, expected: Option<nat>, expHandle: U32,
                        offer: Option<nat>, handle: U32)
    requires Inv(s) && OutsideAllocator(s, t) && P.CanCompare(s.p, t, slot, expected, expHandle, offer, handle)
    ensures Enabled(s, BeginCompare(t, slot, expected, offer))
    ensures OfferHandle(s, offer) == handle && ExpectedHandle(s, expected) == expHandle
  {
    OfferReadable(s, offer, handle);
    if expected.Some? {
      PI.HeldLife(s.p, expected.value);
      SelfHandle(s, s.p.holds[expected.value].inc);
    }
  }

  /** Each step of the whole library is an action of the simple machine, or is not seen by clients. */
  lemma StepRefines(s: State, e: Event)
    requires Inv(s) && Enabled(s, e)
    ensures var pe, a, a' := ProtocolPart(s, e), R.Abstract(s.p), R.Abstract(Apply(s, e).p);
      if pe.Some? then P.Enabled(s.p, pe.value) && Spec.Next(a, R.ActionOf(s.p, pe.value), a') else a' == a
  {
    ProjectsToProtocol(s, e);
    if ProtocolPart(s, e).Some? { R.StepRefines(s.p, ProtocolPart(s, e).value); }
  }

  lemma {:induction false} RunIntact(states: seq<State>, events: seq<Event>, k: nat)
    requires IsRun(states, events) && k < |states|
    requires forall j :: 0 <= j <= k ==> PT.NeverReadsZero(states[j].p)
    ensures Spec.Intact(R.Abstract(states[k].p))
    decreases k
  {
    if k > 0 {
      RunIntact(states, events, k - 1);
      RunInv(states, events, k - 1);
      var s, e := states[k - 1], events[k - 1];
      StepRefines(s, e);
      var pe := ProtocolPart(s, e);
      if pe.Some? {
        Spec.NextKeepsIntact(R.Abstract(s.p), R.ActionOf(s.p, pe.value), R.Abstract(states[k].p));
      }
    }
  }

  /** Refinement of whole runs of library and allocator together: from the empty state, each step is an action of
      the simple machine or unseen, and no holder or slot ever sees a destroyed version. */
  lemma RunRefines(states: seq<State>, events: seq<Event>, k: nat)
    requires IsRun(states, events) && k < |states|
    requires forall j :: 0 <= j < |states| ==> PT.NeverReadsZero(states[j].p)
    ensures k == 0 ==> Spec.IsEmpty(R.Abstract(states[k].p))
    ensures Inv(states[k]) && Spec.Intact(R.Abstract(states[k].p))
    ensures k < |events| ==>
      var pe, a, a' := ProtocolPart(states[k], events[k]), R.Abstract(states[k].p), R.Abstract(states[k + 1].p);
      if pe.Some? then P.Enabled(states[k].p, pe.value) && Spec.Next(a, R.ActionOf(states[k].p, pe.value), a')
      else a' == a
  {
    RunInv(states, events, k);
    RunIntact(states, events, k);
    if k < |events| { StepRefines(states[k], events[k]); }
  }
}
