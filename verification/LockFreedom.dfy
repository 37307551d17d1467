module LockFreedom {
  // Every failure of a compare-and-swap that is not spurious is paid for: since the word was read, another
  // thread's operation has taken effect on the same word.

  import opened Words
  import opened Handles
  import P = Protocol
  import PI = ProtocolInvariant
  import PT = ProtocolTheorems
  import A = Allocator
  import AI = AllocatorInvariant
  import AS = AllocatorSteps
  import AT = AllocatorTheorems
  import T = TaggedFreeList
  import TI = TaggedFreeListInvariant

  // Compare-exchange.

  /** The step is an operation of some thread taking effect on control block `x`: an acquire, an exchange, or
      a compare-exchange that succeeds. */
  predicate TakesEffect(s: P.State, e: P.Event, x: nat)
    requires P.Enabled(s, e)
  {
    match e
    case Acquire(slot, _) => slot == x
    case ExchangeSwap(t) => s.pcs[t].slot == x
    case CompareCas(t, _) => s.pcs[t].slot == x && PT.CompareSucceeds(s, e)
    case _ => false
  }

  lemma ControlKept(s: P.State, e: P.Event, x: nat)
    requires P.Enabled(s, e) && x < |s.control| && !TakesEffect(s, e, x)
    ensures x < |P.Apply(s, e).control| && P.Apply(s, e).control[x] == s.control[x]
  {
  }

  lemma {:induction false} ControlKeptOverRun(states: seq<P.State>, events: seq<P.Event>, x: nat, j: nat, k: nat)
    requires P.IsRun(states, events) && j <= k < |states| && x < |states[j].control|
    requires forall i :: j <= i < k ==> !TakesEffect(states[i], events[i], x)
    ensures x < |states[k].control| && states[k].control[x] == states[j].control[x]
    decreases k
  {
    if j < k {
      ControlKeptOverRun(states, events, x, j, k - 1);
      ControlKept(states[k - 1], events[k - 1], x);
    }
  }

  /** The compare-exchange of thread `t` has just read the word that is in its control block. */
  predicate HasJustRead(s: P.State, t: nat) {
    && t < |s.pcs| && s.pcs[t].CompareLoop? && s.pcs[t].slot < |s.control|
    && s.pcs[t].cur == s.control[s.pcs[t].slot]
  }

  /** The load and every failed attempt leave the call with the word that is there. */
  lemma ReadsCurrent(s: P.State, e: P.Event)
    requires P.Enabled(s, e) && (e.CompareLoad? || e.CompareCas?) && P.Apply(s, e).pcs[e.t].CompareLoop?
    ensures HasJustRead(P.Apply(s, e), e.t)
  {
  }

  /** If the attempt in state `k` finds another word than was read in state `j`, then in between an operation of
      some thread took effect on that control block. */
  lemma CompareFailurePaid(states: seq<P.State>, events: seq<P.Event>, t: nat, j: nat, k: nat) returns (i: nat)
    requires P.IsRun(states, events) && j <= k < |states| && HasJustRead(states[j], t)
    requires var pc := states[j].pcs[t]; pc.slot < |states[k].control| && states[k].control[pc.slot] != pc.cur
    ensures j <= i < k && TakesEffect(states[i], events[i], states[j].pcs[t].slot)
  {
    var x := states[j].pcs[t].slot;
    if forall n :: j <= n < k ==> !TakesEffect(states[n], events[n], x) {
      ControlKeptOverRun(states, events, x, j, k);
    }
    i :| j <= i < k && TakesEffect(states[i], events[i], x);
  }

  // free_slot.

  /** The step is an operation of some thread taking effect on the shared stack of arena `a`: a push that
      lands, or a batch steal. */
  predicate MovesTop(s: A.State, e: A.Event, a: nat)
    requires A.Enabled(s, e)
  {
    match e
    case TryPush(t, spurious) =>
      var pc := s.pcs[t];
      ArenaOf(pc.handle) == a && s.arenas[a].top == pc.seen && !spurious
    case Steal(t) => s.contexts[s.pcs[t].c].value.owned[s.pcs[t].k] == a
    case _ => false
  }

  /** Thread `t` is inside a free of a slot of arena `a`. */
  predicate PushesInto(s: A.State, t: nat, a: nat) {
    t < |s.pcs| && AI.IsPush(s.pcs[t]) && ArenaOf(s.pcs[t].handle) == a && a in s.arenas
  }

  /** An arena with a slot in flight is not the one that its owner gives back. */
  lemma DropsAnother(s: A.State, e: A.Event, t: nat, a: nat)
    requires AI.Inv(s) && A.Enabled(s, e) && (e.Drop? || e.DropOnExit?) && PushesInto(s, t, a)
    ensures A.Last(s, s.pcs[e.t].c) != a
  {
    assert AI.PcOk(s, t);
    AS.SlotFacts(s, s.pcs[t].handle);
    AT.ReclaimDiscardsNothing(s, e);
  }

  /** Nor is it one that the owner sets up. */
  lemma SetsUpAnother(s: A.State, e: A.Event, t: nat, a: nat)
    requires AI.Inv(s) && A.Enabled(s, e) && (e.Grow? || e.Setup?) && PushesInto(s, t, a)
    ensures e.Setup? ==> s.pcs[e.t].a != a
    ensures var ctx := s.contexts[s.pcs[e.t].c].value;
      e.Grow? && ctx.active < |ctx.owned| ==> ctx.owned[ctx.active] != a
  {
    assert AI.PcOk(s, t) && AI.PcOk(s, e.t);
    AS.SlotFacts(s, s.pcs[t].handle);
    var c := s.pcs[e.t].c;
    var ctx := s.contexts[c].value;
    if e.Grow? && ctx.active < |ctx.owned| { AS.OwnedArena(s, c, ctx.active); }
  }

  lemma OwnerKeepsTop(s: A.State, e: A.Event, t: nat, a: nat)
    requires AI.Inv(s) && A.Enabled(s, e) && AT.TouchesOwned(e) && PushesInto(s, t, a) && !MovesTop(s, e, a)
    ensures a in A.Apply(s, e).arenas && A.Apply(s, e).arenas[a].top == s.arenas[a].top
  {
    if e.Drop? || e.DropOnExit? {
      DropsAnother(s, e, t, a);
    } else if e.Grow? || e.Setup? {
      SetsUpAnother(s, e, t, a);
    }
  }

  lemma SlotStepKeepsTop(s: A.State, e: A.Event, a: nat)
    requires A.Enabled(s, e) && AT.TouchesSlot(e) && a in s.arenas && !MovesTop(s, e, a)
    ensures a in A.Apply(s, e).arenas && A.Apply(s, e).arenas[a].top == s.arenas[a].top
  {
  }

  lemma TopKept(s: A.State, e: A.Event, t: nat, a: nat)
    requires AI.Inv(s) && A.Enabled(s, e) && PushesInto(s, t, a) && !MovesTop(s, e, a)
    ensures a in A.Apply(s, e).arenas && A.Apply(s, e).arenas[a].top == s.arenas[a].top
  {
    if AT.TouchesOwned(e) {
      OwnerKeepsTop(s, e, t, a);
    } else if AT.TouchesSlot(e) {
      SlotStepKeepsTop(s, e, a);
    } else {
      AT.OthersTouchNothing(s, e);
    }
  }

  lemma {:induction false} TopKeptOverRun(states: seq<A.State>, events: seq<A.Event>, t: nat, a: nat, j: nat, k: nat)
    requires AT.IsRun(states, events) && j <= k < |states| && a in states[j].arenas
    requires forall i :: j <= i < k ==> PushesInto(states[i], t, a) && !MovesTop(states[i], events[i], a)
    ensures a in states[k].arenas && states[k].arenas[a].top == states[j].arenas[a].top
    decreases k
  {
    if j < k {
      TopKeptOverRun(states, events, t, a, j, k - 1);
      AT.RunInv(states, events, k - 1);
      TopKept(states[k - 1], events[k - 1], t, a);
    }
  }

  /** If thread `t`, inside a free from state `j` to state `k`, finds another top than it read in state `j`, then
      in between a push landed on that arena or its owner stole the stack. */
  lemma PushFailurePaid(states: seq<A.State>, events: seq<A.Event>, t: nat, a: nat, j: nat, k: nat) returns (i: nat)
    requires AT.IsRun(states, events) && j <= k < |states|
    requires forall n :: j <= n <= k ==> PushesInto(states[n], t, a)
    requires a in states[j].arenas && a in states[k].arenas && states[k].arenas[a].top != states[j].arenas[a].top
    ensures j <= i < k && MovesTop(states[i], events[i], a)
  {
    if forall n :: j <= n < k ==> !MovesTop(states[n], events[n], a) {
      assert PushesInto(states[j], t, a);
      TopKeptOverRun(states, events, t, a, j, k);
    }
    i :| j <= i < k && MovesTop(states[i], events[i], a);
  }

  /** The free of thread `t` is about to link its slot to the top that is there. */
  predicate HasJustReadTop(s: A.State, t: nat) {
    && t < |s.pcs| && s.pcs[t].PushLink? && ArenaOf(s.pcs[t].handle) in s.arenas
    && s.pcs[t].seen == s.arenas[ArenaOf(s.pcs[t].handle)].top
  }

  /** The load and every failed attempt, spurious or not, leave the call with its slot and the top that is there. */
  lemma ReadsCurrentTop(s: A.State, e: A.Event)
    requires A.Enabled(s, e) && (e.LoadTop? || e.TryPush?)
    ensures A.Apply(s, e).pcs[e.t].Idle? || HasJustReadTop(A.Apply(s, e), e.t)
    ensures A.Apply(s, e).pcs[e.t].Idle? || A.Apply(s, e).pcs[e.t].handle == s.pcs[e.t].handle
    ensures e.LoadTop? || e.spurious || s.arenas[ArenaOf(s.pcs[e.t].handle)].top != s.pcs[e.t].seen ==>
      !A.Apply(s, e).pcs[e.t].Idle?
  {
  }

  /** In state `s` slot `h` has become the top of the shared stack of its arena, which in state `s0` was `stack`. */
  predicate HasLanded(s0: A.State, s: A.State, h: U32) {
    && A.HasSlot(s0, h) && A.HasSlot(s, h)
    && var arena0, arena := s0.arenas[ArenaOf(h)], s.arenas[ArenaOf(h)];
      && arena.top == Word(Wrap(arena0.top.hi + 1), h) && arena.stack == arena0.stack + [SlotOf(h)]
      && arena.locs[SlotOf(h)] == A.OnStack(|arena0.stack|)
  }

  lemma LandsOnSeenTop(s: A.State, t: nat)
    requires A.Enabled(s, A.TryPush(t, false)) && s.arenas[ArenaOf(s.pcs[t].handle)].top == s.pcs[t].seen
    ensures var r := A.Apply(s, A.TryPush(t, false)); r.pcs[t].Idle? && HasLanded(s, r, s.pcs[t].handle)
  {
  }

  /** A free of a slot of arena `a` goes on with the top it read in state `j` until its next attempt. */
  lemma {:induction false} SeenKept(states: seq<A.State>, events: seq<A.Event>, t: nat, a: nat, j: nat, k: nat)
    requires AT.IsRun(states, events) && j <= k < |states| && HasJustReadTop(states[j], t)
    requires ArenaOf(states[j].pcs[t].handle) == a
    requires forall i :: j <= i < k ==> !(events[i].TryPush? && events[i].t == t)
    ensures var pc := states[j].pcs[t];
      && PushesInto(states[k], t, a)
      && (states[k].pcs[t] == A.PushLink(pc.handle, pc.seen) || states[k].pcs[t] == A.PushTry(pc.handle, pc.seen))
    decreases k
  {
    if j < k {
      SeenKept(states, events, t, a, j, k - 1);
      AT.RunInv(states, events, k - 1);
      assert A.Enabled(states[k - 1], events[k - 1]);
      if events[k - 1].t != t { AT.OthersStay(states[k - 1], events[k - 1], t); }
      ArenasStay(states[k - 1], events[k - 1], a);
    }
  }

  lemma ArenasStay(s: A.State, e: A.Event, a: nat)
    requires A.Enabled(s, e) && a in s.arenas
    ensures a in A.Apply(s, e).arenas
  {
  }

  /** An attempt lands, whatever failed before it, if since the top was last read no push has landed on that arena
      and its owner has not stolen the stack. */
  lemma UndisturbedPushLands(states: seq<A.State>, events: seq<A.Event>, t: nat, a: nat, j: nat, k: nat)
    requires AT.IsRun(states, events) && j <= k < |events| && HasJustReadTop(states[j], t)
    requires ArenaOf(states[j].pcs[t].handle) == a && events[k] == A.TryPush(t, false)
    requires forall i :: j <= i < k ==> !(events[i].TryPush? && events[i].t == t)
    requires forall i :: j <= i < k ==> !MovesTop(states[i], events[i], a)
    ensures A.IsIdle(states[k + 1], t) && HasLanded(states[k], states[k + 1], states[j].pcs[t].handle)
  {
    forall i | j <= i < k ensures PushesInto(states[i], t, a) { SeenKept(states, events, t, a, j, i); }
    SeenKept(states, events, t, a, j, k);
    TopKeptOverRun(states, events, t, a, j, k);
    assert A.Enabled(states[k], events[k]);
    LandsOnSeenTop(states[k], t);
  }

  // The tagged free list.

  /** If the pop of thread `t` finds another head than it read, the head has been updated since. */
  lemma PopFailurePaid(s: T.State, t: nat)
    requires TI.Inv(s) && t < |s.pcs| && (s.pcs[t].AllocRead? || s.pcs[t].AllocTry?) && s.head != s.pcs[t].head
    ensures s.pcs[t].start < s.updates
  {
    assert TI.PcOk(s, t);
  }
}
