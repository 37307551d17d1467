module ProtocolTheorems {
  // What the protocol promises, over every run: no premature reclamation, one
  // finalization per version, the split counters, compare-exchange without ABA,
  // bounded retries.

  import opened Words
  import opened Protocol
  import opened ProtocolInvariant

  /** The word of version `i` says DETACHED while the number of its holders is a positive
      multiple of 2^32: its counter reads zero although it is held. */
  predicate ReadsZeroWhileHeld(s: State, i: nat) {
    && IsLive(s, i)
    && HasDetached(InnerAt(s, s.versions[i].addr).lo)
    && !s.versions[i].life.Destroyed?
    && Outstanding(s, i) > 0 && Outstanding(s, i) % MOD32 == 0
  }

  /** Fewer than 2^32 holders on every version that has been detached. */
  ghost predicate FewHolders(s: State) {
    forall i :: 0 <= i < |s.versions| && (s.versions[i].life.Detached? || s.versions[i].life.Doomed?) ==>
      Outstanding(s, i) < MOD32
  }

  lemma UnheldExactly(s: State)
    requires Core(s)
    ensures Unheld(s) <==> forall i :: 0 <= i < |s.versions| ==> !ReadsZeroWhileHeld(s, i)
  {
    forall i | 0 <= i < |s.versions|
      ensures ReadsZeroWhileHeld(s, i) <==> s.versions[i].life.Doomed? && Outstanding(s, i) != 0
    {
      assert VersionOk(s, i);
    }
    if forall i :: 0 <= i < |s.versions| ==> !ReadsZeroWhileHeld(s, i) {
      forall i | 0 <= i < |s.versions| && s.versions[i].life.Doomed? ensures Outstanding(s, i) == 0 {
        assert !ReadsZeroWhileHeld(s, i);
      }
    }
  }

  /** Somebody may still use version `i`: it is current in a slot, a hold on it is
      outstanding, or a writer has swapped it out and not yet detached it. */
  ghost predicate StillNeeded(s: State, i: nat) {
    || (exists x :: 0 <= x < |s.current| && s.current[x] == Some(i))
    || (exists k :: k in s.holds && s.holds[k].inc == i)
    || (i < |s.versions| && s.versions[i].life.Unlinked?)
  }

  /** The thread is in the part of its call that disposes of version `i`. */
  predicate Disposes(pc: Pc, i: nat) {
    (pc.Finalizing? || pc.Calling? || pc.Freeing?) && pc.inc == i
  }

  /** Version `i` has run no callback, and no thread is about to finalize it, call back or free it. */
  ghost predicate Spared(s: State, i: nat) {
    i < |s.versions| && s.versions[i].callbacks == 0 && forall t :: 0 <= t < |s.pcs| ==> !Disposes(s.pcs[t], i)
  }

  /** No premature reclamation: whatever is still needed is spared. */
  ghost predicate NothingPremature(s: State) {
    forall i: nat :: StillNeeded(s, i) ==> Spared(s, i)
  }

  /** In good states a version that is still needed has not been condemned,
      finalized or called back, however often its counters have wrapped. */
  lemma NoPrematureReclamation(s: State, i: nat)
    requires Inv(s) && StillNeeded(s, i)
    ensures IsLive(s, i) && InUse(s.versions[i].life)
    ensures !HasFinalized(InnerAt(s, s.versions[i].addr).lo)
    ensures s.versions[i].zeroSights == 0 && s.versions[i].callbacks == 0
    ensures forall t :: 0 <= t < |s.pcs| && (s.pcs[t].Finalizing? || s.pcs[t].Calling? || s.pcs[t].Freeing?) ==>
      s.pcs[t].inc != i
  {
    if x :| 0 <= x < |s.current| && s.current[x] == Some(i) {
      assert SlotOk(s, x);
    } else if k :| k in s.holds && s.holds[k].inc == i {
      HeldLife(s, k);
    }
    assert VersionOk(s, i);
    forall t | 0 <= t < |s.pcs| && (s.pcs[t].Finalizing? || s.pcs[t].Calling? || s.pcs[t].Freeing?)
      ensures s.pcs[t].inc != i
    {
      assert PcOk(s, t);
    }
  }

  /** Sparing what is still needed is all that the invariant adds to the tie between words and history. */
  lemma PrematureExactly(s: State)
    requires Core(s)
    ensures NothingPremature(s) <==> Inv(s)
  {
    if Inv(s) {
      forall i: nat | StillNeeded(s, i) ensures Spared(s, i) { NoPrematureReclamation(s, i); }
    }
    if NothingPremature(s) {
      forall i | 0 <= i < |s.versions| && s.versions[i].life.Doomed? ensures Outstanding(s, i) == 0 {
        assert VersionOk(s, i);
        if Outstanding(s, i) > 0 {
          var k :| k in Holders(s.holds, i);
          assert StillNeeded(s, i) && Disposes(s.pcs[s.versions[i].life.thread], i);
        }
      }
    }
  }

  predicate NeverReadsZero(s: State) {
    forall i :: 0 <= i < |s.versions| ==> !ReadsZeroWhileHeld(s, i)
  }

  /** The steps that condemn a version in its holders' hands, told by the state they are taken in: a release of
      a detached version that leaves a positive multiple of 2^32 holders, or a detaching compare-and-swap
      that will succeed while there are so many. */
  predicate Condemns(s: State, e: Event)
    requires Enabled(s, e)
  {
    match e
    case Release(_, hold) =>
      var i := s.holds[hold].inc;
      && i < |s.versions| && s.versions[i].life.Detached?
      && Outstanding(s, i) > 1 && (Outstanding(s, i) - 1) % MOD32 == 0
    case DetachCas(t, spurious) =>
      var pc := s.pcs[t];
      && InnerAt(s, pc.addr) == pc.cur && !spurious
      && Outstanding(s, pc.inc) > 0 && Outstanding(s, pc.inc) % MOD32 == 0
    case _ => false
  }

  lemma ReleaseCondemns(s: State, t: nat, hold: nat)
    requires Inv(s) && Enabled(s, Release(t, hold)) && Core(Apply(s, Release(t, hold)))
    ensures Inv(Apply(s, Release(t, hold))) <==> !Condemns(s, Release(t, hold))
  {
    var s', i := Apply(s, Release(t, hold)), s.holds[hold].inc;
    HeldLife(s, hold);
    HoldersRemove(s.holds, hold);
    assert VersionOk(s, i) && VersionOk(s', i);
    forall j | 0 <= j < |s'.versions| && j != i && s'.versions[j].life.Doomed? ensures Outstanding(s', j) == 0 {
      assert s.versions[j].life.Doomed?;
    }
  }

  lemma DetachCondemns(s: State, t: nat, spurious: bool)
    requires Inv(s) && Enabled(s, DetachCas(t, spurious)) && Core(Apply(s, DetachCas(t, spurious)))
    ensures Inv(Apply(s, DetachCas(t, spurious))) <==> !Condemns(s, DetachCas(t, spurious))
  {
    var s', i := Apply(s, DetachCas(t, spurious)), s.pcs[t].inc;
    assert PcOk(s, t) && VersionOk(s, i) && VersionOk(s', i);
    forall j | 0 <= j < |s'.versions| && j != i && s'.versions[j].life.Doomed? ensures Outstanding(s', j) == 0 {
      assert s.versions[j].life.Doomed?;
    }
  }

  lemma CondemnsExactly(s: State, e: Event)
    requires Inv(s) && Enabled(s, e)
    ensures Inv(Apply(s, e)) <==> !Condemns(s, e)
  {
    StepKeeps(s, e);
    match e
    case Release(t, hold) => ReleaseCondemns(s, t, hold);
    case DetachCas(t, spurious) => DetachCondemns(s, t, spurious);
    case _ =>
  }

  /** A step from a good state reclaims nothing prematurely if and only if it is not one that condemns, which
      can be told before it is taken; equivalently, it leaves no detached version held a positive
      multiple of 2^32 times. */
  lemma StepSafeExactly(s: State, e: Event)
    requires Inv(s) && Enabled(s, e)
    ensures NothingPremature(Apply(s, e)) <==> !Condemns(s, e)
    ensures NothingPremature(Apply(s, e)) <==> NeverReadsZero(Apply(s, e))
    ensures NothingPremature(Apply(s, e)) <==> Inv(Apply(s, e))
  {
    StepKeeps(s, e);
    CondemnsExactly(s, e);
    UnheldExactly(Apply(s, e));
    PrematureExactly(Apply(s, e));
  }

  /** Good states up to `k`, if no detached version is held a positive multiple of 2^32 times up to there. */
  lemma {:induction false} RunInv(states: seq<State>, events: seq<Event>, k: nat)
    requires IsRun(states, events) && k < |states|
    requires forall j :: 0 <= j <= k ==> NeverReadsZero(states[j])
    ensures Inv(states[k])
    decreases k
  {
    if k == 0 {
      var slots: nat, threads: nat :| states[0] == Init(slots, threads);
      InitKeeps(slots, threads);
    } else {
      RunInv(states, events, k - 1);
      StepSafeExactly(states[k - 1], events[k - 1]);
      assert NeverReadsZero(states[k]);
    }
  }

  /** Good states up to `k`, if nothing is reclaimed prematurely up to there. */
  lemma {:induction false} SparingRunInv(states: seq<State>, events: seq<Event>, k: nat)
    requires IsRun(states, events) && k < |states|
    requires forall j :: 0 <= j <= k ==> NothingPremature(states[j])
    ensures Inv(states[k])
    decreases k
  {
    if k == 0 {
      var slots: nat, threads: nat :| states[0] == Init(slots, threads);
      InitKeeps(slots, threads);
    } else {
      SparingRunInv(states, events, k - 1);
      StepSafeExactly(states[k - 1], events[k - 1]);
      assert NothingPremature(states[k]);
    }
  }

  /** Good states up to `k`, if no step up to there condemns a held version. */
  lemma {:induction false} UncondemnedRunInv(states: seq<State>, events: seq<Event>, k: nat)
    requires IsRun(states, events) && k < |states|
    requires forall j :: 0 <= j < k ==> !Condemns(states[j], events[j])
    ensures Inv(states[k])
    decreases k
  {
    if k == 0 {
      var slots: nat, threads: nat :| states[0] == Init(slots, threads);
      InitKeeps(slots, threads);
    } else {
      UncondemnedRunInv(states, events, k - 1);
      CondemnsExactly(states[k - 1], events[k - 1]);
    }
  }

  /** Along every run: nothing is ever reclaimed prematurely if and only if no release and no detaching step is
      taken that leaves its detached version with a positive multiple of 2^32 holders. */
  lemma RunSafeExactly(states: seq<State>, events: seq<Event>)
    requires IsRun(states, events)
    ensures (forall k :: 0 <= k < |states| ==> NothingPremature(states[k])) <==>
            (forall k :: 0 <= k < |events| ==> !Condemns(states[k], events[k]))
  {
    if forall k :: 0 <= k < |events| ==> !Condemns(states[k], events[k]) {
      forall k | 0 <= k < |states| ensures NothingPremature(states[k]) {
        UncondemnedRunInv(states, events, k);
        PrematureExactly(states[k]);
      }
    }
    if forall k :: 0 <= k < |states| ==> NothingPremature(states[k]) {
      forall k | 0 <= k < |events| ensures !Condemns(states[k], events[k]) {
        SparingRunInv(states, events, k);
        SparingRunInv(states, events, k + 1);
        CondemnsExactly(states[k], events[k]);
      }
    }
  }

  /** The same, told by the states: no detached version is ever held a positive multiple of 2^32 times. */
  lemma RunSafeByHolders(states: seq<State>, events: seq<Event>)
    requires IsRun(states, events)
    ensures (forall k :: 0 <= k < |states| ==> NothingPremature(states[k])) <==>
            (forall k :: 0 <= k < |states| ==> NeverReadsZero(states[k]))
  {
    if forall k :: 0 <= k < |states| ==> NeverReadsZero(states[k]) {
      forall k | 0 <= k < |states| ensures NothingPremature(states[k]) {
        RunInv(states, events, k);
        PrematureExactly(states[k]);
      }
    }
    if forall k :: 0 <= k < |states| ==> NothingPremature(states[k]) {
      forall k | 0 <= k < |states| ensures NeverReadsZero(states[k]) {
        SparingRunInv(states, events, k);
        UnheldExactly(states[k]);
      }
    }
  }

  /** The bound a client can keep: fewer than 2^32 holders on every detached version. */
  lemma FewHoldersSuffice(states: seq<State>, events: seq<Event>, k: nat)
    requires IsRun(states, events) && k < |states|
    requires forall j :: 0 <= j < |states| ==> FewHolders(states[j])
    ensures Inv(states[k])
    decreases k
  {
    if k == 0 {
      var slots: nat, threads: nat :| states[0] == Init(slots, threads);
      InitKeeps(slots, threads);
    } else {
      FewHoldersSuffice(states, events, k - 1);
      StepKeeps(states[k - 1], events[k - 1]);
      CoreAndFewHolders(states[k]);
    }
  }

  lemma CoreAndFewHolders(s: State)
    requires Core(s) && FewHolders(s)
    ensures Inv(s)
  {
    forall i | 0 <= i < |s.versions| && s.versions[i].life.Doomed? ensures Outstanding(s, i) == 0 {
      assert VersionOk(s, i);
    }
  }

  /** Exactly-once finalization.  No version is condemned or called back twice, and a detached
      version without holders is already claimed or has exactly one thread about to claim it. */
  lemma FinalizedExactlyOnce(s: State, i: nat)
    requires Inv(s) && i < |s.versions|
    ensures !s.aborted
    ensures s.versions[i].zeroSights <= 1 && s.versions[i].callbacks <= 1
    ensures s.versions[i].published && s.versions[i].callbacks == 1 ==> s.versions[i].zeroSights == 1
    ensures IsLive(s, i) && !s.versions[i].life.Destroyed? && s.versions[i].published &&
            HasDetached(InnerAt(s, s.versions[i].addr).lo) && Outstanding(s, i) == 0 ==>
            exists t :: 0 <= t < |s.pcs| && Disposes(s.pcs[t], i)
                        && (if HasFinalized(InnerAt(s, s.versions[i].addr).lo) then s.pcs[t].Calling?
                            else s.pcs[t].Finalizing?)
    ensures forall t, u :: 0 <= t < |s.pcs| && 0 <= u < |s.pcs| && Disposes(s.pcs[t], i) && Disposes(s.pcs[u], i) ==>
      t == u
  {
    assert VersionOk(s, i);
    var life := s.versions[i].life;
    if life.Doomed? || life.Claimed? {
      assert Disposes(s.pcs[life.thread], i);
    }
    forall t, u | 0 <= t < |s.pcs| && 0 <= u < |s.pcs| && Disposes(s.pcs[t], i) && Disposes(s.pcs[u], i)
      ensures t == u
    {
      assert PcOk(s, t) && PcOk(s, u);
    }
  }

  /** The split counters.  While a version is current, the outer count is its acquires and the
      inner count its releases; once detached, the inner count is minus its holders; all modulo
      2^32, and never at the expense of the handle or the flags. */
  lemma SplitCounters(s: State, i: nat)
    requires Inv(s) && i < |s.versions|
    ensures s.versions[i].acquires == s.versions[i].releases + Outstanding(s, i)
    ensures s.versions[i].life.Published? ==>
      var x := s.versions[i].life.slot;
      && x < |s.control| && s.current[x] == Some(i)
      && s.control[x] == Word(Wrap(s.versions[i].acquires), s.versions[i].addr)
      && InnerAt(s, s.versions[i].addr) == Word(Wrap(s.versions[i].releases), 0)
    ensures s.versions[i].life.Detached? ==>
      InnerAt(s, s.versions[i].addr) == Word(Wrap(0 - Outstanding(s, i)), DETACHED)
  {
    assert VersionOk(s, i);
    if s.versions[i].life.Published? { assert SlotOk(s, s.versions[i].life.slot); }
  }

  /** An acquire, on an empty slot too, is one unsigned 64-bit addition of `1 << 32` to the control block.  It takes
      one hold more on the very version that is current, or none if there is none, and changes no other hold. */
  lemma AcquireExactly(s: State, slot: nat, hold: nat)
    requires Inv(s) && Enabled(s, Acquire(slot, hold))
    ensures slot < |s.control| == |s.current|
    ensures var s' := Apply(s, Acquire(slot, hold));
      && |s'.control| == |s.control| && Value(s'.control[slot]) == (Value(s.control[slot]) + MOD32) % MOD64
      && (forall x :: 0 <= x < |s.control| && x != slot ==> s'.control[x] == s.control[x])
      && s'.current == s.current && s'.pcs == s.pcs && s'.inner == s.inner
      && match s.current[slot]
         case None => s'.holds == s.holds && s'.versions == s.versions
         case Some(i) =>
           && s'.holds == s.holds[hold := Hold(s.control[slot].lo, i)] && Outstanding(s', i) == Outstanding(s, i) + 1
           && hold !in s.holds && i < |s.versions| && s.versions[i].addr == s.control[slot].lo
  {
    EmptyExactly(s, slot);
    AddUpperIsUnsignedAdd(s.control[slot]);
    if s.current[slot].Some? {
      var i := s.current[slot].value;
      assert SlotOk(s, slot) && VersionOk(s, i);
      HoldersAdd(s.holds, hold, Hold(s.control[slot].lo, i));
    }
  }

  /** A swap, and a compare-exchange that succeeds, leave in the control block the handle of the new version, or
      HANDLE_NULL, with reference count zero; they take out whatever was current, to be detached next
      with exactly the count that the old word had, and touch no other slot, hold or inner state. */
  lemma SwapExactly(s: State, e: Event)
    requires Inv(s) && Enabled(s, e) && (e.ExchangeSwap? || CompareSucceeds(s, e))
    ensures var x, offer, s' := s.pcs[e.t].slot, s.pcs[e.t].offer, Apply(s, e);
      && x < |s.control| == |s.current| && (offer.Some? ==> offer.value < |s.versions|)
      && s'.control == s.control[x := Word(0, if offer.None? then HANDLE_NULL else s.versions[offer.value].addr)]
      && s'.current == s.current[x := offer] && s'.holds == s.holds && s'.inner == s.inner
      && match s.current[x]
         case None => s'.pcs == s.pcs[e.t := Idle]
         case Some(i) =>
           && i < |s.versions|
           && var gone := s.versions[i];
              s'.pcs == s.pcs[e.t := DetachReady(gone.addr, Wrap(gone.acquires), i, Outstanding(s, i))]
  {
    assert PcOk(s, e.t) && SlotOk(s, s.pcs[e.t].slot);
    EmptyExactly(s, s.pcs[e.t].slot);
  }

  /** A control block holds HANDLE_NULL exactly when no version is current in it. */
  lemma EmptyExactly(s: State, x: nat)
    requires Inv(s) && x < |s.control|
    ensures x < |s.current| && (s.control[x].lo == HANDLE_NULL <==> s.current[x] == None)
  {
    assert SlotOk(s, x);
    if s.current[x].Some? { assert VersionOk(s, s.current[x].value); }
  }

  /** The incarnation that a compare-exchange in progress expects, or none for NULL. */
  function ExpectedInc(s: State, pc: Pc): Option<nat>
    requires pc.CompareReady? || pc.CompareLoop?
    requires pc.expected.Some? ==> pc.expected.value in s.holds
  {
    match pc.expected
    case None => None
    case Some(k) => Some(s.holds[k].inc)
  }

  /** A handle in a control block matches the expected one exactly when the very incarnation
      that the caller holds is current, although handles are recycled. */
  lemma HandleIdentifies(s: State, t: nat)
    requires Inv(s) && AtPc(s, t) && (s.pcs[t].CompareReady? || s.pcs[t].CompareLoop?)
    ensures s.pcs[t].slot < |s.control| == |s.current|
    ensures s.pcs[t].expected.Some? ==> s.pcs[t].expected.value in s.holds
    ensures s.control[s.pcs[t].slot].lo == s.pcs[t].expHandle <==>
            s.current[s.pcs[t].slot] == ExpectedInc(s, s.pcs[t])
  {
    var pc := s.pcs[t];
    assert PcOk(s, t) && SlotOk(s, pc.slot);
    if pc.expected.Some? {
      var k := pc.expected.value;
      HeldLife(s, k);
      var i := s.holds[k].inc;
      assert VersionOk(s, i);
      if s.current[pc.slot].Some? {
        var j := s.current[pc.slot].value;
        if i != j { assert Apart(s, i, j); }
      }
    } else if s.current[pc.slot].Some? {
      assert VersionOk(s, s.current[pc.slot].value);
    }
  }

  predicate CompareSucceeds(s: State, e: Event)
    requires Enabled(s, e)
  {
    e.CompareCas? && s.control[s.pcs[e.t].slot] == s.pcs[e.t].cur && !e.spurious
  }

  predicate CompareReturnsFalse(s: State, e: Event)
    requires Enabled(s, e)
  {
    && (e.CompareLoad? || (e.CompareCas? && !CompareSucceeds(s, e)))
    && s.control[s.pcs[e.t].slot].lo != s.pcs[e.t].expHandle
  }

  /** ABA freedom: a compare-exchange replaces exactly the incarnation its caller holds, and
      returns false only at an instant when another one, or none, is current. */
  lemma CompareWithoutAba(s: State, e: Event)
    requires Inv(s) && Enabled(s, e) && (e.CompareLoad? || e.CompareCas?)
    ensures s.pcs[e.t].expected.Some? ==> s.pcs[e.t].expected.value in s.holds
    ensures CompareSucceeds(s, e) ==> s.current[s.pcs[e.t].slot] == ExpectedInc(s, s.pcs[e.t])
    ensures CompareReturnsFalse(s, e) ==> s.current[s.pcs[e.t].slot] != ExpectedInc(s, s.pcs[e.t])
    ensures CompareSucceeds(s, e) ==> Apply(s, e).current == s.current[s.pcs[e.t].slot := s.pcs[e.t].offer]
    ensures !CompareSucceeds(s, e) ==> Apply(s, e).current == s.current && Apply(s, e).control == s.control
  {
    assert PcOk(s, e.t);
    HandleIdentifies(s, e.t);
  }

  /** Bounded retries: each failure of the detaching compare-and-swap that is not spurious is
      paid for by a release, so there are at most as many as holders at the swap. */
  lemma RetriesBounded(s: State, t: nat)
    requires Inv(s) && AtPc(s, t) && s.pcs[t].DetachLoop?
    ensures s.pcs[t].fails + Outstanding(s, s.pcs[t].inc) <= s.pcs[t].owed
  {
    assert PcOk(s, t) && VersionOk(s, s.pcs[t].inc);
  }

  /** `owed` is the number of holders at the swap, and a failing retry keeps it. */
  lemma RetryAccounting(s: State, e: Event)
    requires Inv(s) && Enabled(s, e)
    ensures (e.ExchangeSwap? || CompareSucceeds(s, e)) && Apply(s, e).pcs[e.t].DetachReady? ==>
      var pc := Apply(s, e).pcs[e.t];
      && s.current[s.pcs[e.t].slot] == Some(pc.inc)
      && pc.owed == Outstanding(s, pc.inc) == Outstanding(Apply(s, e), pc.inc)
    ensures e.DetachCas? && Apply(s, e).pcs[e.t].DetachLoop? ==>
      var pc, pc' := s.pcs[e.t], Apply(s, e).pcs[e.t];
      && pc'.owed == pc.owed && pc'.inc == pc.inc
      && pc'.fails == pc.fails + (if InnerAt(s, pc.addr) == pc.cur then 0 else 1)
  {
    if e.ExchangeSwap? || CompareSucceeds(s, e) {
      assert PcOk(s, e.t) && SlotOk(s, s.pcs[e.t].slot);
      assert Apply(s, e).holds == s.holds;
    }
  }

  /** The next step of a thread inside a call. */
  function NextStep(s: State, t: nat): Event
    requires t < |s.pcs| && !s.pcs[t].Idle?
  {
    match s.pcs[t]
    case ExchangeReady(_, _, _) => ExchangeSwap(t)
    case CompareReady(_, _, _, _, _) => CompareLoad(t)
    case CompareLoop(_, _, _, _, _, _) => CompareCas(t, false)
    case DetachReady(_, _, _, _) => DetachLoad(t)
    case DetachLoop(_, _, _, _, _, _, _) => DetachCas(t, false)
    case Finalizing(_, _) => ClaimFinal(t)
    case Calling(_, _) => RunCallback(t)
    case Freeing(_, _) => EnterFree(t)
  }

  /** A call in progress can always go on. */
  lemma NeverStuck(s: State, t: nat)
    requires Inv(s) && t < |s.pcs| && !s.pcs[t].Idle?
    ensures Enabled(s, NextStep(s, t))
  {
    assert PcOk(s, t);
  }
}
