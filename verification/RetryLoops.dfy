module RetryLoops {
  // The library's calls as the code has them: load, compare-and-swap loop, detach, finalize, run
  // by one thread while others go on.
  //
  // `rivals` are the steps that other threads take before each step of this thread's own; one
  // that is not possible when its turn comes, or that would bring the holds on one version to
  // 2^32, is not taken.  `spurious` tells which attempts of a weak compare-and-swap fail
  // although the word has not changed.

  import opened Words
  import opened Protocol
  import opened ProtocolInvariant
  import opened ProtocolTheorems

  /** Fewer than 2^32 simultaneous holds on each version. */
  predicate Modest(s: State) {
    forall i {:trigger Outstanding(s, i)} :: 0 <= i < |s.versions| ==> Outstanding(s, i) < MOD32
  }

  ghost predicate Good(s: State) {
    Inv(s) && Modest(s)
  }

  /** Event `e` is not a step of thread `t`. */
  predicate ByOthers(e: Event, t: nat) {
    match e
    case Make(_) => true
    case Acquire(_, _) => true
    case Clobber(_) => true
    case _ => e.t != t
  }

  predicate CanInterfere(s: State, e: Event, t: nat) {
    Enabled(s, e) && ByOthers(e, t) && Modest(Apply(s, e))
  }

  /** The state after the possible ones among the steps of others. */
  function Interfered(s: State, events: seq<Event>, t: nat): State
    decreases |events|
  {
    if events == [] then s
    else if CanInterfere(s, events[0], t) then Interfered(Apply(s, events[0]), events[1..], t)
    else Interfered(s, events[1..], t)
  }

  lemma OthersLeavePc(s: State, e: Event, t: nat)
    requires Enabled(s, e) && ByOthers(e, t) && t < |s.pcs|
    ensures |Apply(s, e).pcs| == |s.pcs| && Apply(s, e).pcs[t] == s.pcs[t]
  {
  }

  /** A hold that a compare-exchange of thread `t` relies on stays. */
  lemma OthersLeavePinned(s: State, e: Event, t: nat, k: nat)
    requires Enabled(s, e) && t < |s.pcs| && Pins(s.pcs[t], k) && k in s.holds
    ensures k in Apply(s, e).holds && Apply(s, e).holds[k] == s.holds[k]
  {
  }

  /** The steps of others leave this thread where it is. */
  predicate Undisturbed(s: State, s': State, t: nat) {
    && t < |s.pcs| == |s'.pcs| && s'.pcs[t] == s.pcs[t]
    && forall k :: Pins(s.pcs[t], k) && k in s.holds ==> k in s'.holds && s'.holds[k] == s.holds[k]
  }

  lemma {:induction false} InterferedKeeps(s: State, events: seq<Event>, t: nat)
    requires Good(s) && t < |s.pcs|
    ensures var s' := Interfered(s, events, t); Good(s') && Undisturbed(s, s', t)
    decreases |events|
  {
    if events != [] {
      var e := events[0];
      if CanInterfere(s, e, t) {
        ModestStepKeeps(s, e);
        OthersLeavePc(s, e, t);
        forall k | Pins(s.pcs[t], k) && k in s.holds
          ensures k in Apply(s, e).holds && Apply(s, e).holds[k] == s.holds[k]
        {
          OthersLeavePinned(s, e, t, k);
        }
        InterferedKeeps(Apply(s, e), events[1..], t);
      } else {
        InterferedKeeps(s, events[1..], t);
      }
    }
  }

  lemma ModestStepKeeps(s: State, e: Event)
    requires Inv(s) && Enabled(s, e) && Modest(Apply(s, e))
    ensures Inv(Apply(s, e))
  {
    StepKeeps(s, e);
    CoreAndFewHolders(Apply(s, e));
  }

  /** A step that takes no hold cannot exceed the bound. */
  lemma HoldsStayModest(s: State, e: Event)
    requires Good(s) && Enabled(s, e) && !e.Acquire? && !e.Make?
    ensures Good(Apply(s, e))
  {
    var s' := Apply(s, e);
    if e.Release? { HoldersRemove(s.holds, e.hold); }
    forall i | 0 <= i < |s'.versions| ensures Outstanding(s', i) < MOD32 {
      assert Outstanding(s, i) < MOD32;
    }
    ModestStepKeeps(s, e);
  }

  /** Where thread `t` is after its detaching compare-and-swap has succeeded. */
  predicate HasDetachedIt(s: State, t: nat, addr: U32, inc: nat, next: Word) {
    && t < |s.pcs| && inc < |s.versions| && s.versions[inc].addr == addr
    && next == Word(Wrap(0 - Outstanding(s, inc)), DETACHED)
    && (if Outstanding(s, inc) == 0 then s.pcs[t] == Finalizing(addr, inc) && s.versions[inc].life == Doomed(t)
        else s.pcs[t] == Idle && s.versions[inc].life == Detached)
  }

  lemma DetachLands(s: State, t: nat)
    requires Good(s) && t < |s.pcs| && s.pcs[t].DetachLoop?
    requires InnerAt(s, s.pcs[t].addr) == s.pcs[t].cur
    ensures var pc := s.pcs[t]; var next := Word(Sub32(pc.cur.hi, pc.refs), SetDetached(pc.cur.lo));
      HasDetachedIt(Apply(s, DetachCas(t, false)), t, pc.addr, pc.inc, next)
  {
    var pc := s.pcs[t];
    assert PcOk(s, t) && VersionOk(s, pc.inc);
    SubWrapped(s.versions[pc.inc].releases, s.versions[pc.inc].acquires);
    WrapZero(Outstanding(s, pc.inc));
  }

  /** A release writes DETACHED with counter zero exactly when it gives up the only hold on a detached version. */
  lemma ReleaseSeesZero(s: State, hold: nat)
    requires Good(s) && hold in s.holds
    ensures var i := s.holds[hold].inc;
      && i < |s.versions| && s.versions[i].addr == s.holds[hold].addr
      && (SeesZero(AddUpper(InnerAt(s, s.versions[i].addr))) <==>
        s.versions[i].life.Detached? && Outstanding(s, i) == 1)
  {
    var i := s.holds[hold].inc;
    HeldLife(s, hold);
    assert VersionOk(s, i) && hold in Holders(s.holds, i);
    IncWrapped(0 - Outstanding(s, i));
    IncWrapped(s.versions[i].releases);
    WrapZero(Outstanding(s, i) - 1);
  }

  /** The incarnation that `expected` names. */
  function Wanted(s: State, expected: Option<nat>): Option<nat>
    requires expected.Some? ==> expected.value in s.holds
  {
    if expected.Some? then Some(s.holds[expected.value].inc) else None
  }

  /** The compare-exchange of thread `t` still has the arguments it was called with, and its hold. */
  predicate Comparing(s: State, t: nat, slot: nat, expected: Option<nat>, want: Option<nat>, offer: Option<nat>) {
    && t < |s.pcs| && (s.pcs[t].CompareReady? || s.pcs[t].CompareLoop?)
    && s.pcs[t].slot == slot && s.pcs[t].expected == expected && s.pcs[t].offer == offer
    && (expected.Some? ==> expected.value in s.holds) && Wanted(s, expected) == want
  }

  lemma StillComparing(s: State, s': State, t: nat, slot: nat, expected: Option<nat>, want: Option<nat>,
                       offer: Option<nat>)
    requires Comparing(s, t, slot, expected, want, offer) && Undisturbed(s, s', t)
    ensures Comparing(s', t, slot, expected, want, offer)
  {
    if expected.Some? { assert Pins(s.pcs[t], expected.value); }
  }

  /** The instant at which a compare-exchange is decided. */
  ghost predicate Decided(s: State, slot: nat, want: Option<nat>, ok: bool) {
    Good(s) && slot < |s.current| && (ok <==> s.current[slot] == want)
  }

  /** What the decisive step leaves: the slot with the new version and the old one to be detached, or
      everything as it was and the new version with the caller again. */
  predicate AfterCompare(s: State, at: State, t: nat, slot: nat, want: Option<nat>, offer: Option<nat>, ok: bool)
    requires slot < |at.current|
  {
    && t < |s.pcs|
    && if ok then
         && s.current == at.current[slot := offer]
         && if want.Some? then s.pcs[t].DetachReady? && s.pcs[t].inc == want.value else s.pcs[t].Idle?
       else
         && s.current == at.current && s.pcs[t].Idle?
         && (offer.Some? ==> offer.value < |s.versions| && s.versions[offer.value].life.Private?)
  }

  /** The outcomes of one attempt. */
  lemma CompareDecided(s: State, t: nat, missed: bool)
    requires Good(s) && t < |s.pcs| && s.pcs[t].CompareLoop? && Enabled(s, CompareCas(t, missed))
    requires s.pcs[t].expected.Some? ==> s.pcs[t].expected.value in s.holds
    ensures var pc := s.pcs[t]; var e := CompareCas(t, missed); var want := Wanted(s, pc.expected);
      && s.pcs[t].slot < |s.current|
      && (CompareSucceeds(s, e) ==>
        s.current[pc.slot] == want && AfterCompare(Apply(s, e), s, t, pc.slot, want, pc.offer, true))
      && (CompareReturnsFalse(s, e) ==>
        s.current[pc.slot] != want && AfterCompare(Apply(s, e), s, t, pc.slot, want, pc.offer, false))
      && (!CompareSucceeds(s, e) && !CompareReturnsFalse(s, e) ==>
            var now := s.control[pc.slot];
            Apply(s, e) == Goto(s, t, CompareLoop(pc.slot, pc.expHandle, pc.expected, pc.handle, pc.offer, now)))
  {
    CompareWithoutAba(s, CompareCas(t, missed));
    assert PcOk(s, t) && SlotOk(s, s.pcs[t].slot);
    if s.current[s.pcs[t].slot].Some? { assert VersionOk(s, s.current[s.pcs[t].slot].value); }
  }

  /** Version `i` has been detached: destroyed, with one callback, or left to its holders. */
  predicate IsRetired(s: State, i: nat, destroyed: bool) {
    && i < |s.versions|
    && if destroyed then s.versions[i].life.Gone? && s.versions[i].callbacks == 1
       else s.versions[i].life.Detached? && s.versions[i].callbacks == 0 && Outstanding(s, i) > 0
  }

  /** In each of rounds 1 to `rounds` others moved or the compare-and-swap failed for no reason. */
  predicate AllDisturbed(rivals: nat -> seq<Event>, spurious: nat -> bool, rounds: nat) {
    forall n :: 0 < n <= rounds ==> rivals(n) != [] || spurious(n)
  }

  lemma DisturbedOnceMore(rivals: nat -> seq<Event>, spurious: nat -> bool, n: nat)
    requires AllDisturbed(rivals, spurious, n) && (rivals(n + 1) != [] || spurious(n + 1))
    ensures AllDisturbed(rivals, spurious, n + 1)
  {
  }

  /** A step that a thread took, and the state in which it took it. */
  datatype Step = Step(at: State, event: Event)

  /** The loop of `detach_and_adjust` goes on with the word `cur`. */
  predicate IsDetachRetry(s: State, t: nat, addr: U32, refs: U32, i: nat, owed: nat, cur: Word, fails: nat) {
    && t < |s.pcs| && s.pcs[t].DetachLoop?
    && s.pcs[t] == DetachLoop(addr, refs, i, owed, cur, s.pcs[t].seen, fails)
  }

  /** The step that detached version `i` and led to `s`. */
  predicate IsDetaching(step: Step, s: State, t: nat, i: nat) {
    step.event.DetachCas? && step.event.t == t && Outstanding(step.at, i) == Outstanding(s, i)
  }

  /** The step that decides a compare-exchange: with success, the slot gets the new version; without,
      no slot changes. */
  predicate IsDecisive(step: Step, t: nat, slot: nat, offer: Option<nat>, ok: bool) {
    && (step.event.CompareLoad? || step.event.CompareCas?) && step.event.t == t && Enabled(step.at, step.event)
    && slot < |step.at.current| && step.at.pcs[t].slot == slot && step.at.pcs[t].offer == offer
    && (if ok then CompareSucceeds(step.at, step.event) else CompareReturnsFalse(step.at, step.event))
    && Apply(step.at, step.event).current == if ok then step.at.current[slot := offer] else step.at.current
  }

  /** Step `step` has decided the compare-exchange and led to `s`. */
  ghost predicate IsOutcome(s: State, step: Step, t: nat, slot: nat, want: Option<nat>, offer: Option<nat>, ok: bool) {
    && Decided(step.at, slot, want, ok) && IsDecisive(step, t, slot, offer, ok)
    && AfterCompare(s, step.at, t, slot, want, offer, ok) && s == Apply(step.at, step.event)
  }

  /** The loop of compare-exchange goes on with the word `cur` that is there now. */
  predicate IsRetry(s: State, t: nat, slot: nat, expected: Option<nat>, want: Option<nat>, offer: Option<nat>,
                    cur: Word) {
    && Comparing(s, t, slot, expected, want, offer) && s.pcs[t].CompareLoop?
    && slot < |s.control| && s.pcs[t].cur == cur == s.control[slot] && cur.lo == s.pcs[t].expHandle
  }

  // What a call may do once it has taken a version out.

  predicate IsDisposal(e: Event) {
    e.DetachLoad? || e.DetachCas? || e.ClaimFinal? || e.RunCallback? || e.EnterFree?
  }

  predicate IsDisposing(pc: Pc) {
    pc.DetachReady? || pc.DetachLoop? || pc.Finalizing? || pc.Calling? || pc.Freeing?
  }

  /** The step of thread `t` detaches or destroys version `i`. */
  predicate Retires(step: Step, t: nat, i: nat) {
    && IsDisposal(step.event) && step.event.t == t
    && t < |step.at.pcs| && IsDisposing(step.at.pcs[t]) && step.at.pcs[t].inc == i
  }

  /** From `s` to `s'` nothing has changed but version `i`, its inner state and the place of thread `t`. */
  predicate OnlyRetires(s: State, s': State, t: nat, i: nat) {
    && s'.control == s.control && s'.current == s.current && s'.holds == s.holds && s'.aborted == s.aborted
    && |s'.pcs| == |s.pcs| && (forall u :: 0 <= u < |s.pcs| && u != t ==> s'.pcs[u] == s.pcs[u])
    && |s'.versions| == |s.versions|
    && (forall j :: 0 <= j < |s.versions| && j != i ==> s'.versions[j] == s.versions[j])
  }

  lemma OnlyRetiresTrans(s0: State, s1: State, s2: State, t: nat, i: nat)
    requires OnlyRetires(s0, s1, t, i) && OnlyRetires(s1, s2, t, i)
    ensures OnlyRetires(s0, s2, t, i)
  {
  }

  /** Such a step changes nothing else. */
  lemma RetiresOnly(s: State, e: Event, t: nat, i: nat)
    requires Good(s) && Enabled(s, e) && Retires(Step(s, e), t, i)
    ensures OnlyRetires(s, Apply(s, e), t, i)
  {
    HoldsStayModest(s, e);
  }

  /** The log has grown only by steps of thread `t` that retire version `i`. */
  predicate Tail(log0: seq<Step>, log: seq<Step>, t: nat, i: nat) {
    log0 <= log && forall k {:trigger log[k]} :: |log0| <= k < |log| ==> Retires(log[k], t, i)
  }

  lemma TailTrans(log0: seq<Step>, log1: seq<Step>, log2: seq<Step>, t: nat, i: nat)
    requires Tail(log0, log1, t, i) && Tail(log1, log2, t, i)
    ensures Tail(log0, log2, t, i)
  {
    forall k | |log0| <= k < |log2| ensures Retires(log2[k], t, i) {
      if k < |log1| { assert log2[k] == log1[k]; }
    }
  }

  /** What a call does after its swap has led to `s1`: it retires the version that was taken out, which is `was`, and
      nothing if there was none. */
  predicate AfterSwap(was: Option<nat>, s1: State, log1: seq<Step>, s: State, log: seq<Step>, t: nat, destroyed: bool,
                      calm: bool) {
    if was.None? then s == s1 && log == log1
    else
      && IsRetired(s, was.value, destroyed) && Tail(log1, log, t, was.value)
      && (calm ==> OnlyRetires(s1, s, t, was.value))
  }

  /** The slot holds the new version and the other slots and all holds are as they were. */
  predicate HasExchanged(s0: State, s: State, slot: nat, offer: Option<nat>) {
    && slot < |s0.current| && s.current == s0.current[slot := offer] && s.holds == s0.holds
    && (offer.Some? ==> offer.value < |s.versions| && s.versions[offer.value].life == Published(slot))
  }

  lemma SwapExchanges(s0: State, at: State, t: nat, slot: nat, offer: Option<nat>, handle: U32)
    requires Good(s0) && CanExchange(s0, t, slot, offer, handle) && Enabled(at, ExchangeSwap(t))
    ensures at == Apply(s0, ExchangeBegin(t, slot, offer, handle)) ==>
      && HasExchanged(s0, Apply(at, ExchangeSwap(t)), slot, offer)
      && (offer.Some? ==> s0.current[slot] != offer)
  {
    assert SlotOk(s0, slot);
  }

  lemma StaysExchanged(s0: State, s1: State, s: State, t: nat, i: nat, slot: nat, offer: Option<nat>)
    requires HasExchanged(s0, s1, slot, offer) && OnlyRetires(s1, s, t, i) && offer != Some(i)
    ensures HasExchanged(s0, s, slot, offer)
  {
  }

  /** No other thread moves. */
  ghost predicate Calm(rivals: nat -> seq<Event>) {
    forall n: nat :: rivals(n) == []
  }

  /** What others do from round `d` on. */
  function Later(rivals: nat -> seq<Event>, d: nat): nat -> seq<Event> {
    (n: nat) => rivals(d + n)
  }

  lemma StaysCalm(rivals: nat -> seq<Event>, d: nat)
    requires Calm(rivals)
    ensures Calm(Later(rivals, d))
  {
  }

  /** Nothing but the place of thread `t` differs. */
  predicate SameButPc(s: State, s': State, t: nat) {
    && s' == s.(pcs := s'.pcs) && |s'.pcs| == |s.pcs|
    && forall u :: 0 <= u < |s.pcs| && u != t ==> s'.pcs[u] == s.pcs[u]
  }

  /** The log has grown only by loads and attempts of the compare-exchange of thread `t`. */
  predicate OnlyCompares(log0: seq<Step>, log: seq<Step>, t: nat) {
    log0 <= log && forall k {:trigger log[k]} :: |log0| <= k < |log| ==>
      (log[k].event.CompareLoad? || log[k].event.CompareCas?) && log[k].event.t == t
  }

  lemma ComparesOnceMore(log0: seq<Step>, log: seq<Step>, step: Step, t: nat)
    requires OnlyCompares(log0, log, t) && step.event.CompareCas? && step.event.t == t
    ensures OnlyCompares(log0, log + [step], t)
  {
  }

  lemma SameButPcTrans(s0: State, s1: State, s2: State, t: nat)
    requires SameButPc(s0, s1, t) && SameButPc(s1, s2, t)
    ensures SameButPc(s0, s2, t)
  {
  }

  /** Step `k` of the log has decided the compare-exchange; since then the call has retired the version that it
      replaced, or has done nothing. */
  ghost predicate HasCompared(step: Step, t: nat, slot: nat, want: Option<nat>, offer: Option<nat>, ok: bool,
                              s: State, log: seq<Step>, k: nat, destroyed: bool, calm: bool)
    requires k < |log|
  {
    && Decided(step.at, slot, want, ok) && IsDecisive(step, t, slot, offer, ok)
    && var s1 := Apply(step.at, step.event);
      && AfterCompare(s1, step.at, t, slot, want, offer, ok)
      && AfterSwap(if ok then want else None, s1, log[..k + 1], s, log, t, destroyed, calm)
  }

  /** Decided in state `at`, the compare-exchange has led from `s0` to `s`: to the exchange or to no change. */
  predicate IsCalmOutcome(s0: State, at: State, s: State, slot: nat, offer: Option<nat>, ok: bool) {
    && at.current == s0.current
    && if ok then HasExchanged(s0, s, slot, offer) && (offer.Some? ==> s0.current[slot] != offer) else s == s0
  }

  /** A compare-exchange that nobody disturbs is decided in the state it began in, and one that returns false has
      changed nothing. */
  lemma CalmCompare(s0: State, step: Step, t: nat, slot: nat, expected: Option<nat>, expHandle: U32, offer: Option<nat>,
                    handle: U32, ok: bool)
    requires Good(s0) && CanCompare(s0, t, slot, expected, expHandle, offer, handle)
    requires SameButPc(DoOffer(s0, t, offer, CompareReady(slot, expHandle, expected, handle, offer)), step.at, t)
    requires slot < |step.at.current| && IsDecisive(step, t, slot, offer, ok)
    requires AfterCompare(Apply(step.at, step.event), step.at, t, slot, Wanted(s0, expected), offer, ok)
    ensures IsCalmOutcome(s0, step.at, Apply(step.at, step.event), slot, offer, ok)
  {
    assert SlotOk(s0, slot);
    if !ok {
      var r := Apply(step.at, step.event);
      assert r.versions == s0.versions;
      assert r.pcs == s0.pcs;
    }
  }

  /** The shared memory, with its history; `log` is the steps of the calling thread, and `landed` the state that
      the last of them led to. */
  class Memory {
    var state: State
    ghost var log: seq<Step>
    ghost var landed: State

    /** Some steps of others. */
    method Interfere(t: nat, rivals: seq<Event>)
      requires Good(state) && t < |state.pcs|
      modifies this`state
      ensures Good(state) && Undisturbed(old(state), state, t)
      ensures rivals == [] ==> state == old(state)
    {
      InterferedKeeps(state, rivals, t);
      state := Interfered(state, rivals, t);
    }

    /** One step of this thread that takes no hold. */
    method Perform(e: Event)
      requires Good(state) && Enabled(state, e) && !e.Acquire? && !e.Make?
      modifies this
      ensures Good(state) && state == Apply(old(state), e) == landed && log == old(log) + [Step(old(state), e)]
    {
      HoldsStayModest(state, e);
      log := log + [Step(state, e)];
      state := Apply(state, e);
      landed := state;
    }

    /** One step of this thread that retires version `i`. */
    method PerformRetire(e: Event, t: nat, ghost i: nat)
      requires Good(state) && Enabled(state, e) && Retires(Step(state, e), t, i)
      modifies this
      ensures Good(state) && state == Apply(old(state), e) == landed && log == old(log) + [Step(old(state), e)]
      ensures OnlyRetires(old(state), state, t, i)
    {
      RetiresOnly(state, e, t, i);
      Perform(e);
    }

    /** One attempt of the compare-and-swap of `detach_and_adjust`, after some steps of others. */
    method AttemptDetach(t: nat, rivals: seq<Event>, missed: bool) returns (done: bool, now: Word)
      requires Good(state) && t < |state.pcs| && state.pcs[t].DetachLoop?
      modifies this
      ensures Good(state) && t < |state.pcs| && old(log) < log && state == landed
      ensures done == (now == old(state.pcs[t].cur) && !missed)
      ensures done ==> IsDetaching(log[|log| - 1], state, t, old(state.pcs[t].inc))
      ensures Tail(old(log), log, t, old(state.pcs[t].inc))
      ensures rivals == [] ==> OnlyRetires(old(state), state, t, old(state.pcs[t].inc))
      ensures var was := old(state.pcs[t]);
        if done then
          HasDetachedIt(state, t, was.addr, was.inc, Word(Sub32(was.cur.hi, was.refs), SetDetached(was.cur.lo)))
        else
          && state.pcs[t].DetachLoop? && state.pcs[t].fails == was.fails + (if now == was.cur then 0 else 1) <= was.owed
          && IsDetachRetry(state, t, was.addr, was.refs, was.inc, was.owed, now, state.pcs[t].fails)
    {
      Interfere(t, rivals);
      var pc := state.pcs[t];
      now := InnerAt(state, pc.addr);
      done := now == pc.cur && !missed;
      if done { DetachLands(state, t); }
      PerformRetire(DetachCas(t, missed), t, pc.inc);
      if !done { RetriesBounded(state, t); }
    }

    /** The loop of `detach_and_adjust`.  It ends: each failure is either one of the `budget` spurious
        ones or is paid for by a release, of which there are at most as many as holders at the swap. */
    method DetachRounds(t: nat, rivals: nat -> seq<Event>, spurious: nat -> bool, budget: nat)
      returns (next: Word, fails: nat, hiccups: nat)
      requires Good(state) && t < |state.pcs| && state.pcs[t].DetachLoop? && state.pcs[t].fails == 0 && state == landed
      modifies this
      ensures Good(state) && HasDetachedIt(state, t, old(state.pcs[t].addr), old(state.pcs[t].inc), next)
      ensures fails <= old(state.pcs[t].owed) && hiccups <= budget && state == landed
      ensures old(log) < log && IsDetaching(log[|log| - 1], state, t, old(state.pcs[t].inc))
      ensures Tail(old(log), log, t, old(state.pcs[t].inc))
      ensures !Calm(rivals) || OnlyRetires(old(state), state, t, old(state.pcs[t].inc))
    {
      var DetachLoop(addr, refs, inc, owed, cur, _, _) := state.pcs[t];
      fails, hiccups := 0, 0;
      while true
        invariant Good(state) && fails <= owed && hiccups <= budget && state == landed
        invariant IsDetachRetry(state, t, addr, refs, inc, owed, cur, fails)
        invariant Tail(old(log), log, t, inc)
        invariant !Calm(rivals) || OnlyRetires(old(state), state, t, inc)
        decreases owed - fails + budget - hiccups
      {
        next := Word(Sub32(cur.hi, refs), SetDetached(cur.lo));
        ghost var s1, l := state, log;
        var done, now := AttemptDetach(t, rivals(fails + hiccups), hiccups < budget && spurious(fails + hiccups));
        TailTrans(old(log), l, log, t, inc);
        if Calm(rivals) { OnlyRetiresTrans(old(state), s1, state, t, inc); }
        if done {
          return;
        }
        if now == cur { hiccups := hiccups + 1; } else { fails := fails + 1; }
        cur := now;
      }
    }

    /** The load of `detach_and_adjust`, after some steps of others. */
    method LoadInner(t: nat, rivals: seq<Event>)
      requires Good(state) && t < |state.pcs| && state.pcs[t].DetachReady?
      modifies this
      ensures Good(state) && state == landed && Tail(old(log), log, t, old(state.pcs[t].inc))
      ensures var DetachReady(addr, refs, inc, owed) := old(state.pcs[t]);
        && t < |state.pcs| && state.pcs[t].DetachLoop? && state.pcs[t].addr == addr && state.pcs[t].inc == inc
        && state.pcs[t].refs == refs && state.pcs[t].owed == owed && state.pcs[t].fails == 0
      ensures rivals != [] || OnlyRetires(old(state), state, t, old(state.pcs[t].inc))
    {
      ghost var i := state.pcs[t].inc;
      Interfere(t, rivals);
      PerformRetire(DetachLoad(t), t, i);
    }

    /** The load and the loop of `detach_and_adjust`. */
    method Detach(t: nat, rivals: nat -> seq<Event>, spurious: nat -> bool, budget: nat)
      returns (next: Word, fails: nat, hiccups: nat)
      requires Good(state) && t < |state.pcs| && state.pcs[t].DetachReady?
      modifies this
      ensures Good(state) && HasDetachedIt(state, t, old(state.pcs[t].addr), old(state.pcs[t].inc), next)
      ensures fails <= old(state.pcs[t].owed) && hiccups <= budget && state == landed
      ensures old(log) < log && IsDetaching(log[|log| - 1], state, t, old(state.pcs[t].inc))
      ensures Tail(old(log), log, t, old(state.pcs[t].inc))
      ensures !Calm(rivals) || OnlyRetires(old(state), state, t, old(state.pcs[t].inc))
    {
      ghost var i := state.pcs[t].inc;
      LoadInner(t, rivals(0));
      ghost var s1, l := state, log;
      if Calm(rivals) { StaysCalm(rivals, 1); }
      next, fails, hiccups := DetachRounds(t, Later(rivals, 1), spurious, budget);
      TailTrans(old(log), l, log, t, i);
      if Calm(rivals) { OnlyRetiresTrans(old(state), s1, state, t, i); }
    }

    /** `try_finalize` on the word that this thread has just written: the version is destroyed, once,
        exactly when that word says DETACHED with counter zero, and the abort is never reached. */
    method TryFinalize(t: nat, ghost inc: nat, addr: U32, word: Word, rivals: nat -> seq<Event>)
      requires Good(state) && t < |state.pcs|
      requires state.pcs[t] == (if SeesZero(word) then Finalizing(addr, inc) else Idle) && state == landed
      modifies this
      ensures Good(state) && |state.pcs| == old(|state.pcs|) && state.pcs[t].Idle? && state == landed
      ensures if SeesZero(word)
        then IsRetired(state, inc, true) && old(log) < log
        else state == old(state) && log == old(log)
      ensures Tail(old(log), log, t, inc)
      ensures !Calm(rivals) || OnlyRetires(old(state), state, t, inc)
    {
      if !HasDetached(word.lo) || word.hi != 0 {
        return;
      }
      ClaimAndCall(t, rivals(0), rivals(1));
      Interfere(t, rivals(2));
      assert PcOk(state, t);
      PerformRetire(EnterFree(t), t, inc);
      assert VersionOk(state, inc);
    }

    /** Claims FINALIZED and runs the callback. */
    method ClaimAndCall(t: nat, first: seq<Event>, second: seq<Event>)
      requires Good(state) && t < |state.pcs| && state.pcs[t].Finalizing?
      modifies this
      ensures Good(state) && |state.pcs| == old(|state.pcs|) && old(log) <= log
      ensures state.pcs[t] == Freeing(old(state.pcs[t].addr), old(state.pcs[t].inc))
      ensures Tail(old(log), log, t, old(state.pcs[t].inc))
      ensures first == [] && second == [] ==> OnlyRetires(old(state), state, t, old(state.pcs[t].inc))
    {
      ghost var i := state.pcs[t].inc;
      Interfere(t, first);
      PerformRetire(ClaimFinal(t), t, i);
      Interfere(t, second);
      PerformRetire(RunCallback(t), t, i);
    }

    /** Detaches a version that this thread has swapped out.  Step `k` of the log is the compare-and-swap
        that detached it; the version is destroyed, once, exactly if nobody held it then, and is
        otherwise left to its holders. */
    method DetachAndAdjust(t: nat, rivals: nat -> seq<Event>, spurious: nat -> bool, budget: nat)
      returns (destroyed: bool, ghost k: nat)
      requires Good(state) && t < |state.pcs| && state.pcs[t].DetachReady?
      modifies this
      ensures Good(state) && t < |state.pcs| && state.pcs[t].Idle?
      ensures old(log) <= log && |old(log)| <= k < |log| && log[k].event.DetachCas? && log[k].event.t == t
      ensures var i := old(state.pcs[t].inc);
        && IsRetired(state, i, destroyed) && destroyed == (Outstanding(log[k].at, i) == 0)
        && (!destroyed ==> Outstanding(state, i) == Outstanding(log[k].at, i))
        && Tail(old(log), log, t, i) && state == landed && (Calm(rivals) ==> OnlyRetires(old(state), state, t, i))
    {
      var addr, inc := state.pcs[t].addr, state.pcs[t].inc;
      var next, fails, hiccups := Detach(t, rivals, spurious, budget);
      k := |log| - 1;
      WrapZero(Outstanding(state, inc));
      destroyed := SeesZero(next);
      assert VersionOk(state, inc);
      ghost var s1, l := state, log;
      if Calm(rivals) { StaysCalm(rivals, fails + hiccups); }
      TryFinalize(t, inc, addr, next, Later(rivals, fails + hiccups));
      TailTrans(old(log), l, log, t, inc);
      if Calm(rivals) { OnlyRetiresTrans(old(state), s1, state, t, inc); }
    }

    /** What follows a swap: the version that was taken out, if there was one, is detached. */
    method RetireOld(t: nat, rivals: nat -> seq<Event>, spurious: nat -> bool, budget: nat) returns (destroyed: bool)
      requires Good(state) && t < |state.pcs| && state == landed
      modifies this
      ensures Good(state) && t < |state.pcs| && state == landed && old(log) <= log
      ensures old(state.pcs[t]).DetachReady? ==> state.pcs[t].Idle?
      ensures var pc := old(state.pcs[t]);
        AfterSwap(if pc.DetachReady? then Some(pc.inc) else None, old(state), old(log), state, log, t, destroyed,
                  Calm(rivals))
    {
      destroyed := false;
      if state.pcs[t].DetachReady? {
        ghost var k: nat;
        destroyed, k := DetachAndAdjust(t, rivals, spurious, budget);
      }
    }

    /** `atomsnap_release_version`: the version is destroyed exactly when it was detached and this was its only hold. */
    method ReleaseVersion(t: nat, hold: nat, rivals: nat -> seq<Event>) returns (last: bool)
      requires Good(state) && CanRelease(state, t, hold)
      modifies this
      ensures Good(state) && t < |state.pcs| && state.pcs[t].Idle?
      ensures old(log) + [Step(old(state), Release(t, hold))] <= log
      ensures var i := old(state.holds[hold].inc);
        && i < |old(state.versions)|
        && last == (old(state.versions)[i].life.Detached? && old(Outstanding(state, i)) == 1)
        && (last ==> IsRetired(state, i, true))
      ensures var released := Apply(old(state), Release(t, hold));
        var log1 := old(log) + [Step(old(state), Release(t, hold))];
        && Tail(log1, log, t, old(state.holds[hold].inc)) && state == landed
        && (Calm(rivals) ==> OnlyRetires(released, state, t, old(state.holds[hold].inc)))
        && (!last ==> state == released && log == log1)
    {
      var Hold(addr, inc) := state.holds[hold];
      ReleaseSeesZero(state, hold);
      var now := AddUpper(InnerAt(state, addr));
      last := SeesZero(now);
      Perform(Release(t, hold));
      TryFinalize(t, inc, addr, now, rivals);
    }

    /** The swap of exchange, after some steps of others. */
    method Swap(t: nat, rivals: seq<Event>) returns (ghost at: State)
      requires Good(state) && t < |state.pcs| && state.pcs[t].ExchangeReady?
      modifies this
      ensures Good(state) && t < |state.pcs| && log == old(log) + [Step(at, ExchangeSwap(t))]
      ensures state == landed && (rivals == [] ==> at == old(state))
      ensures Good(at) && Enabled(at, ExchangeSwap(t)) && state == Apply(at, ExchangeSwap(t))
      ensures var ExchangeReady(slot, _, offer) := old(state.pcs[t]);
        && slot < |at.current| && state.current == at.current[slot := offer]
        && if at.current[slot].Some? then state.pcs[t].DetachReady? && state.pcs[t].inc == at.current[slot].value
           else state.pcs[t].Idle?
    {
      Interfere(t, rivals);
      var slot := state.pcs[t].slot;
      assert PcOk(state, t) && SlotOk(state, slot);
      at := state;
      if at.current[slot].Some? { assert VersionOk(state, at.current[slot].value); }
      Perform(ExchangeSwap(t));
    }

    /** The first half of an exchange, up to the swap. */
    method BeginAndSwap(t: nat, slot: nat, offer: Option<nat>, handle: U32, rivals: seq<Event>)
      returns (ghost at: State)
      requires Good(state) && CanExchange(state, t, slot, offer, handle)
      modifies this
      ensures Good(state) && t < |state.pcs| && state == landed
      ensures log == old(log) + [Step(old(state), ExchangeBegin(t, slot, offer, handle)), Step(at, ExchangeSwap(t))]
      ensures Good(at) && Enabled(at, ExchangeSwap(t)) && slot < |at.current| && state == Apply(at, ExchangeSwap(t))
      ensures state.current == at.current[slot := offer]
      ensures if at.current[slot].Some? then state.pcs[t].DetachReady? && state.pcs[t].inc == at.current[slot].value
              else state.pcs[t].Idle?
      ensures rivals == [] ==>
        HasExchanged(old(state), state, slot, offer) && (offer.Some? ==> at.current[slot] != offer)
    {
      Perform(ExchangeBegin(t, slot, offer, handle));
      at := Swap(t, rivals);
      SwapExchanges(old(state), at, t, slot, offer, handle);
    }

    /** `atomsnap_exchange_version_slot`: the swap, in state `at`, puts the new version in the slot; after it the call
        only retires the version that it took out.  Undisturbed, that is all that changes. */
    method ExchangeVersion(t: nat, slot: nat, offer: Option<nat>, handle: U32,
                           rivals: nat -> seq<Event>, spurious: nat -> bool, budget: nat)
      returns (destroyed: bool, ghost at: State)
      requires Good(state) && CanExchange(state, t, slot, offer, handle)
      modifies this
      ensures Good(state) && t < |state.pcs| && state.pcs[t].Idle?
      ensures Good(at) && Enabled(at, ExchangeSwap(t)) && slot < |at.current|
      ensures Apply(at, ExchangeSwap(t)).current == at.current[slot := offer]
      ensures var begin := Step(old(state), ExchangeBegin(t, slot, offer, handle));
        var log1 := old(log) + [begin, Step(at, ExchangeSwap(t))];
        AfterSwap(at.current[slot], Apply(at, ExchangeSwap(t)), log1, state, log, t, destroyed, Calm(rivals))
      ensures state == landed && (Calm(rivals) ==> HasExchanged(old(state), state, slot, offer))
    {
      at := BeginAndSwap(t, slot, offer, handle, rivals(0));
      ghost var s1 := state;
      if Calm(rivals) { StaysCalm(rivals, 1); }
      destroyed := RetireOld(t, Later(rivals, 1), spurious, budget);
      if Calm(rivals) && at.current[slot].Some? {
        StaysExchanged(old(state), s1, state, t, at.current[slot].value, slot, offer);
      }
    }

    /** The load of compare-exchange, after some steps of others; it decides the call if another handle is there. */
    method LoadCompare(t: nat, slot: nat, rivals: seq<Event>,
                       ghost expected: Option<nat>, ghost want: Option<nat>, ghost offer: Option<nat>)
      returns (cur: Word, ghost at: State)
      requires Good(state) && Comparing(state, t, slot, expected, want, offer) && state.pcs[t].CompareReady?
      modifies this
      ensures Good(state) && log == old(log) + [Step(at, CompareLoad(t))] && state == landed
      ensures rivals == [] ==> at == old(state)
      ensures cur.lo == old(state.pcs[t].expHandle) ==> SameButPc(at, state, t)
      ensures if cur.lo != old(state.pcs[t].expHandle)
        then IsOutcome(state, log[|log| - 1], t, slot, want, offer, false)
              else IsRetry(state, t, slot, expected, want, offer, cur)
    {
      ghost var before := state;
      Interfere(t, rivals);
      StillComparing(before, state, t, slot, expected, want, offer);
      HandleIdentifies(state, t);
      assert PcOk(state, t);
      at := state;
      cur := state.control[slot];
      Perform(CompareLoad(t));
    }

    /** One attempt of the compare-and-swap of compare-exchange, after some steps of others. */
    method AttemptCompare(t: nat, slot: nat, cur: Word, rivals: seq<Event>, missed: bool,
                          ghost expected: Option<nat>, ghost want: Option<nat>, ghost offer: Option<nat>)
      returns (ok: bool, now: Word, ghost at: State)
      requires Good(state) && IsRetry(state, t, slot, expected, want, offer, cur)
      modifies this
      ensures Good(state) && log == old(log) + [Step(at, CompareCas(t, missed))] && state == landed
      ensures rivals == [] ==> at == old(state)
      ensures !ok && now.lo == cur.lo ==> SameButPc(at, state, t)
      ensures if ok || now.lo != cur.lo
        then IsOutcome(state, log[|log| - 1], t, slot, want, offer, ok)
              else IsRetry(state, t, slot, expected, want, offer, now)
      ensures rivals == [] && !missed ==> ok
    {
      ghost var before := state;
      Interfere(t, rivals);
      StillComparing(before, state, t, slot, expected, want, offer);
      assert PcOk(state, t);
      CompareDecided(state, t, missed);
      at := state;
      now := state.control[slot];
      ok := now == state.pcs[t].cur && !missed;
      Perform(CompareCas(t, missed));
    }

    /** The loop of compare-exchange, through up to `rounds` rounds; it goes on only if every one was disturbed. */
    method CompareRounds(t: nat, slot: nat, start: Word, ghost expected: Option<nat>, ghost want: Option<nat>,
                         ghost offer: Option<nat>,
                         rivals: nat -> seq<Event>, spurious: nat -> bool, rounds: nat) returns (r: Option<bool>)
      requires Good(state) && IsRetry(state, t, slot, expected, want, offer, start) && state == landed
      modifies this
      ensures Good(state) && OnlyCompares(old(log), log, t) && state == landed
      ensures r.None? || (old(log) < log && IsOutcome(state, log[|log| - 1], t, slot, want, offer, r.value))
      ensures r.Some? && Calm(rivals) ==> SameButPc(old(state), log[|log| - 1].at, t)
      ensures r.Some? || (t < |state.pcs| && state.pcs[t].CompareLoop? && AllDisturbed(rivals, spurious, rounds))
    {
      var n, cur := 0, start;
      while n < rounds
        invariant n <= rounds && AllDisturbed(rivals, spurious, n) && OnlyCompares(old(log), log, t) && state == landed
        invariant !Calm(rivals) || SameButPc(old(state), state, t)
        invariant Good(state) && cur.lo == start.lo && IsRetry(state, t, slot, expected, want, offer, cur)
      {
        ghost var l := log;
        var ok, now, at := AttemptCompare(t, slot, cur, rivals(n + 1), spurious(n + 1), expected, want, offer);
        ComparesOnceMore(old(log), l, log[|l|], t);
        if ok || now.lo != start.lo {
          return Some(ok);
        }
        DisturbedOnceMore(rivals, spurious, n);
        n, cur := n + 1, now;
        if Calm(rivals) { SameButPcTrans(old(state), at, state, t); }
      }
      return None;
    }

    /** The load and the loop of compare-exchange.  The last step decides the call, which succeeds exactly if
        the incarnation that the caller holds is current then. */
    method CompareAndSwap(t: nat, slot: nat, ghost expected: Option<nat>, ghost want: Option<nat>,
                          ghost offer: Option<nat>,
                          rivals: nat -> seq<Event>, spurious: nat -> bool, rounds: nat) returns (r: Option<bool>)
      requires Good(state) && Comparing(state, t, slot, expected, want, offer) && state.pcs[t].CompareReady?
      modifies this
      ensures Good(state) && old(log) < log && OnlyCompares(old(log), log, t) && state == landed
      ensures r.None? || IsOutcome(state, log[|log| - 1], t, slot, want, offer, r.value)
      ensures r.Some? && Calm(rivals) ==> SameButPc(old(state), log[|log| - 1].at, t)
      ensures r.Some? || (t < |state.pcs| && state.pcs[t].CompareLoop? && AllDisturbed(rivals, spurious, rounds))
    {
      var expHandle := state.pcs[t].expHandle;
      var cur, at := LoadCompare(t, slot, rivals(0), expected, want, offer);
      if cur.lo != expHandle {
        return Some(false);
      }
      r := CompareRounds(t, slot, cur, expected, want, offer, rivals, spurious, rounds);
    }

    /** The first half of a compare-exchange, up to its decision. */
    method BeginAndCompare(t: nat, slot: nat, expected: Option<nat>, expHandle: U32, offer: Option<nat>, handle: U32,
                           rivals: nat -> seq<Event>, spurious: nat -> bool, rounds: nat) returns (r: Option<bool>)
      requires Good(state) && CanCompare(state, t, slot, expected, expHandle, offer, handle)
      modifies this
      ensures Good(state) && state == landed
      ensures var log0 := old(log) + [Step(old(state), CompareBegin(t, slot, expected, expHandle, offer, handle))];
        log0 < log && OnlyCompares(log0, log, t)
      ensures r.None? || IsOutcome(state, log[|log| - 1], t, slot, Wanted(old(state), expected), offer, r.value)
      ensures r.None? || !Calm(rivals) || IsCalmOutcome(old(state), log[|log| - 1].at, state, slot, offer, r.value)
      ensures r.Some? || (t < |state.pcs| && state.pcs[t].CompareLoop? && AllDisturbed(rivals, spurious, rounds))
    {
      ghost var want := Wanted(state, expected);
      Perform(CompareBegin(t, slot, expected, expHandle, offer, handle));
      r := CompareAndSwap(t, slot, expected, want, offer, rivals, spurious, rounds);
      if r.Some? && Calm(rivals) {
        CalmCompare(old(state), log[|log| - 1], t, slot, expected, expHandle, offer, handle, r.value);
      }
    }

    /** `atomsnap_compare_exchange_version_slot`, without ABA, through up to `rounds` rounds of its loop.  Step `k`
        of the log decides the call, which returns true exactly if the very version that the caller
        holds as `expected` is current then.  After a success the call only retires that version;
        returning false it does nothing more, and the new version is the caller's as before.  The
        loop goes on only if every round was disturbed. */
    method CompareExchange(t: nat, slot: nat, expected: Option<nat>, expHandle: U32, offer: Option<nat>, handle: U32,
                           rivals: nat -> seq<Event>, spurious: nat -> bool, rounds: nat, budget: nat)
      returns (r: Option<bool>, destroyed: bool, ghost k: nat)
      requires Good(state) && CanCompare(state, t, slot, expected, expHandle, offer, handle)
      modifies this
      ensures Good(state) && t < |state.pcs| && state == landed && |old(log)| < k < |log|
      ensures var begin := Step(old(state), CompareBegin(t, slot, expected, expHandle, offer, handle));
        old(log) + [begin] <= log && OnlyCompares(old(log) + [begin], log[..k + 1], t)
      ensures r.Some? || (k == |log| - 1 && state.pcs[t].CompareLoop? && AllDisturbed(rivals, spurious, rounds))
      ensures var want := Wanted(old(state), expected);
        || r.None?
        || (state.pcs[t].Idle? &&
            HasCompared(log[k], t, slot, want, offer, r.value, state, log, k, destroyed, Calm(rivals)))
      ensures r.Some? && Calm(rivals) ==> (r.value <==> old(state).current[slot] == Wanted(old(state), expected))
      ensures r == Some(true) && Calm(rivals) ==> HasExchanged(old(state), state, slot, offer)
      ensures r == Some(false) && Calm(rivals) ==> state == old(state)
    {
      ghost var want := Wanted(state, expected);
      r := BeginAndCompare(t, slot, expected, expHandle, offer, handle, rivals, spurious, rounds);
      k := |log| - 1;
      ghost var s1, log1 := state, log;
      assert log1[..k + 1] == log1;
      destroyed := RetireOld(t, rivals, spurious, budget);
      assert log[..k + 1] == log1;
      if r == Some(true) && Calm(rivals) && want.Some? {
        StaysExchanged(old(state), s1, state, t, want.value, slot, offer);
      }
    }
  }
}
