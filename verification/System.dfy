module System {
  // The whole library: the reclamation protocol over slots that the allocator hands out and
  // takes back, step by step and interleaved.  A call that reads `self_handle` reads the word
  // that the allocator also uses for links; a version is made in whatever slot the allocator
  // pops; a finalized version goes into `free_slot`; an arena that is given back loses the
  // inner states of its slots.

  import opened Words
  import opened Handles
  import P = Protocol
  import PI = ProtocolInvariant
  import PT = ProtocolTheorems
  import A = Allocator
  import AI = AllocatorInvariant
  import AS = AllocatorSteps
  import AT = AllocatorTheorems

  datatype State = State(
    p: P.State,
    a: A.State,
    tenants: map<U32, nat>)     // history: the live incarnation in each allocated slot

  datatype Event =
    | AllocatorStep(ae: A.Event)
    | Reclaim(ae: A.Event, memory: map<U32, Word>)
    | MakeVersion(t: nat)
    | ProtocolStep(pe: P.Event)
    | BeginExchange(t: nat, slot: nat, offer: Option<nat>)
    | BeginCompare(t: nat, slot: nat, expected: Option<nat>, offer: Option<nat>)
    | EnterFree(t: nat)

  predicate OutsideProtocol(s: State, t: nat) {
    P.IsIdle(s.p, t)
  }

  predicate OutsideAllocator(s: State, t: nat) {
    A.IsIdle(s.a, t)
  }

  /** Steps of the allocator that do not concern versions. */
  predicate IsInternal(ae: A.Event) {
    !ae.Deliver? && !ae.PushBegin? && !ae.Drop? && !ae.DropOnExit?
  }

  predicate BeginsAllocatorCall(ae: A.Event) {
    ae.Register? || ae.Exit? || ae.AllocBegin?
  }

  /** Steps of the protocol that neither read `self_handle` nor enter or leave the allocator. */
  predicate IsPlain(pe: P.Event) {
    !pe.Make? && !pe.ExchangeBegin? && !pe.CompareBegin? && !pe.EnterFree? && !pe.Clobber?
  }

  /** The thread that a plain step begins a call on, if it begins one. */
  predicate BeginsProtocolCall(pe: P.Event) {
    pe.Release? || pe.FreeVersion?
  }

  /** The offered version is NULL, or a private one that can be read. */
  predicate CanOffer(s: State, offer: Option<nat>) {
    offer.Some? ==>
      && offer.value < |s.p.versions| && s.p.versions[offer.value].life.Private?
      && A.HasSlot(s.a, s.p.versions[offer.value].addr)
  }

  function OfferHandle(s: State, offer: Option<nat>): U32
    requires CanOffer(s, offer)
  {
    if offer.None? then HANDLE_NULL else A.WordAt(s.a, s.p.versions[offer.value].addr)
  }

  /** The expected version is NULL, or one that the caller holds. */
  predicate CanExpect(s: State, expected: Option<nat>) {
    expected.Some? ==> expected.value in s.p.holds && A.HasSlot(s.a, s.p.holds[expected.value].addr)
  }

  function ExpectedHandle(s: State, expected: Option<nat>): U32
    requires CanExpect(s, expected)
  {
    if expected.None? then HANDLE_NULL else A.WordAt(s.a, s.p.holds[expected.value].addr)
  }

  predicate CanMake(s: State, t: nat) {
    A.AtPc(s.a, t) && s.a.pcs[t].Got? && A.HasSlot(s.a, s.a.pcs[t].handle)
  }

  predicate CanEnterFree(s: State, t: nat) {
    && P.AtPc(s.p, t) && s.p.pcs[t].Freeing? && OutsideAllocator(s, t) && A.HasSlot(s.a, s.p.pcs[t].addr)
  }

  predicate CanReclaim(s: State, ae: A.Event, memory: map<U32, Word>) {
    && (ae.Drop? || ae.DropOnExit?) && A.Enabled(s.a, ae)
    && (forall addr :: addr in s.p.inner && ArenaOf(addr) != A.Last(s.a, s.a.pcs[ae.t].c) ==>
          addr in memory && memory[addr] == s.p.inner[addr])
  }

  predicate Enabled(s: State, e: Event) {
    && !s.p.aborted && !s.a.failed && A.SizeOk(s.a)
    && match e
       case AllocatorStep(ae) =>
         IsInternal(ae) && A.Enabled(s.a, ae) && (BeginsAllocatorCall(ae) ==> OutsideProtocol(s, ae.t))
       case Reclaim(ae, memory) => CanReclaim(s, ae, memory)
       case MakeVersion(t) => CanMake(s, t)
       case ProtocolStep(pe) =>
         IsPlain(pe) && P.Enabled(s.p, pe) && (BeginsProtocolCall(pe) ==> OutsideAllocator(s, pe.t))
       case BeginExchange(t, slot, offer) =>
         OutsideProtocol(s, t) && OutsideAllocator(s, t) && P.InRange(s.p, slot) && CanOffer(s, offer)
       case BeginCompare(t, slot, expected, offer) =>
         && OutsideProtocol(s, t) && OutsideAllocator(s, t) && P.InRange(s.p, slot)
         && CanOffer(s, offer) && CanExpect(s, expected)
       case EnterFree(t) => CanEnterFree(s, t)
  }

  function Apply(s: State, e: Event): State
    requires Enabled(s, e)
  {
    match e
    case AllocatorStep(ae) => s.(a := A.Apply(s.a, ae))
    case Reclaim(ae, memory) => s.(a := A.Apply(s.a, ae), p := s.p.(inner := memory))
    case MakeVersion(t) =>
      s.(p := P.DoMake(s.p, s.a.pcs[t].handle), a := A.DoDeliver(s.a, t),
         tenants := s.tenants[s.a.pcs[t].handle := |s.p.versions|])
    case ProtocolStep(pe) => s.(p := P.Apply(s.p, pe))
    case BeginExchange(t, slot, offer) =>
      s.(p := P.DoOffer(s.p, t, offer, P.ExchangeReady(slot, OfferHandle(s, offer), offer)))
    case BeginCompare(t, slot, expected, offer) =>
      s.(p := P.DoOffer(s.p, t, offer,
                        P.CompareReady(slot, ExpectedHandle(s, expected), expected, OfferHandle(s, offer), offer)))
    case EnterFree(t) =>
      s.(p := P.DoEnterFree(s.p, t), a := A.DoPushBegin(s.a, t, s.p.pcs[t].addr))
  }

  function Init(slots: nat, threads: nat, size: nat, maxThreads: nat): State {
    State(P.Init(slots, threads), A.Init(size, maxThreads, threads), map[])
  }

  // Linking the two machines.

  predicate IsAllocated(a: A.State, h: U32) {
    A.HasSlot(a, h) && A.LocAt(a, h).Allocated?
  }

  /** Live version `i` has a slot of its own. */
  predicate Housed(s: State, i: nat)
    requires i < |s.p.versions|
  {
    var v := s.p.versions[i];
    !v.life.Gone? ==> IsAllocated(s.a, v.addr) && v.addr in s.tenants && s.tenants[v.addr] == i
  }

  /** An allocated slot has a live version in it. */
  predicate Inhabited(s: State, h: U32) {
    IsAllocated(s.a, h) ==>
      h in s.tenants && P.IsLive(s.p, s.tenants[h]) && s.p.versions[s.tenants[h]].addr == h
  }

  predicate OneCallAtATime(s: State, t: nat)
    requires t < |s.p.pcs| == |s.a.pcs|
  {
    s.p.pcs[t].Idle? || s.a.pcs[t].Idle?
  }

  ghost predicate Link(s: State) {
    && |s.p.pcs| == |s.a.pcs|
    && (forall t {:trigger OneCallAtATime(s, t)} :: 0 <= t < |s.p.pcs| ==> OneCallAtATime(s, t))
    && (forall i {:trigger Housed(s, i)} :: 0 <= i < |s.p.versions| ==> Housed(s, i))
    && (forall h: U32 {:trigger Inhabited(s, h)} :: Inhabited(s, h))
  }

  ghost predicate Inv(s: State) {
    PI.Inv(s.p) && AI.Inv(s.a) && Link(s)
  }

  lemma InitKeeps(slots: nat, threads: nat, size: nat, maxThreads: nat)
    requires 2 <= size < SLOT_SPAN
    ensures Inv(Init(slots, threads, size, maxThreads))
  {
    PI.InitKeeps(slots, threads);
    AS.InitKeeps(size, maxThreads, threads);
  }

  // Steps of one machine as seen by the other.

  lemma InternalKeepsAllocated(a: A.State, e: A.Event, h: U32)
    requires AI.Inv(a) && A.Enabled(a, e) && IsInternal(e)
    ensures IsAllocated(A.Apply(a, e), h) <==> IsAllocated(a, h)
  {
    if e.Pop? { PopKeepsAllocated(a, e.t, h); }
    else if e.Steal? { StealKeepsAllocated(a, e.t, h); }
    else if e.Grow? { GrowKeepsAllocated(a, e.t, h); }
    else if e.Setup? { SetupKeepsAllocated(a, e.t, h); }
    else if e.StoreLink? { StoreLinkKeepsAllocated(a, e.t, h); }
    else if e.TryPush? { TryPushKeepsAllocated(a, e.t, h); }
    else { assert A.Apply(a, e).arenas == a.arenas; }
  }

  lemma StealKeepsAllocated(a: A.State, t: nat, h: U32)
    requires AI.Inv(a) && A.Enabled(a, A.Steal(t))
    ensures IsAllocated(A.DoSteal(a, t), h) <==> IsAllocated(a, h)
  {
  }

  lemma SetupKeepsAllocated(a: A.State, t: nat, h: U32)
    requires AI.Inv(a) && A.Enabled(a, A.Setup(t))
    ensures IsAllocated(A.DoSetup(a, t), h) <==> IsAllocated(a, h)
  {
    assert AI.PcOk(a, t);
  }

  lemma PopKeepsAllocated(a: A.State, t: nat, h: U32)
    requires AI.Inv(a) && A.Enabled(a, A.Pop(t))
    ensures IsAllocated(A.DoPop(a, t), h) <==> IsAllocated(a, h)
  {
    var c := a.pcs[t].c;
    assert AI.ContextOk(a, c, a.contexts[c].value);
    if a.contexts[c].value.chain != [] {
      AS.TopOfChain(a, c);
      SlotIdentity(h, a.contexts[c].value.localTop);
    }
  }

  lemma SlotIdentity(h: U32, g: U32)
    ensures ArenaOf(h) == ArenaOf(g) && SlotOf(h) == SlotOf(g) <==> h == g
  {
    EveryWordIsAHandle(h);
    EveryWordIsAHandle(g);
  }

  /** No slot of an arena that is not active is allocated. */
  lemma InactiveNotAllocated(a: A.State, c: nat, k: nat, h: U32)
    requires AI.Inv(a) && A.HasContext(a, c) && a.contexts[c].value.active <= k < |a.contexts[c].value.owned|
    requires ArenaOf(h) == a.contexts[c].value.owned[k]
    ensures !IsAllocated(a, h)
  {
    AS.OwnedArena(a, c, k);
  }

  lemma GrowKeepsAllocated(a: A.State, t: nat, h: U32)
    requires AI.Inv(a) && A.Enabled(a, A.Grow(t))
    ensures IsAllocated(A.DoGrow(a, t), h) <==> IsAllocated(a, h)
  {
    var c := a.pcs[t].c;
    var ctx := a.contexts[c].value;
    if ctx.active < |ctx.owned| && ArenaOf(h) == ctx.owned[ctx.active] {
      InactiveNotAllocated(a, c, ctx.active, h);
    }
  }

  lemma StoreLinkKeepsAllocated(a: A.State, t: nat, h: U32)
    requires AI.Inv(a) && A.Enabled(a, A.StoreLink(t))
    ensures IsAllocated(A.DoStoreLink(a, t), h) <==> IsAllocated(a, h)
  {
  }

  lemma TryPushKeepsAllocated(a: A.State, t: nat, h: U32)
    requires AI.Inv(a) && A.Enabled(a, A.TryPush(t, false))
    ensures forall spurious :: IsAllocated(A.DoTryPush(a, t, spurious), h) <==> IsAllocated(a, h)
  {
    assert AI.PcOk(a, t);
    SlotIdentity(h, a.pcs[t].handle);
  }

  lemma DropKeepsAllocated(a: A.State, e: A.Event, h: U32)
    requires AI.Inv(a) && A.Enabled(a, e) && (e.Drop? || e.DropOnExit?)
    ensures IsAllocated(A.Apply(a, e), h) <==> IsAllocated(a, h)
  {
    assert AI.PcOk(a, e.t);
    AS.FullMeansAllReturned(a, a.pcs[e.t].c);
  }

  /** Only thread `e.t` moves in a step of the allocator. */
  lemma AllocatorThreads(a: A.State, e: A.Event)
    requires A.Enabled(a, e)
    ensures var a' := A.Apply(a, e);
      && |a'.pcs| == |a.pcs|
      && forall u :: 0 <= u < |a.pcs| && u != e.t ==> a'.pcs[u] == a.pcs[u]
    ensures a.pcs[e.t].Idle? ==> BeginsAllocatorCall(e) || e.PushBegin?
  {
  }

  /** A plain step of the protocol moves no version to another slot, ends the life of none, and
      takes only the thread that begins a call out of idleness. */
  predicate SameTenants(p: P.State, p': P.State) {
    && |p'.versions| == |p.versions|
    && (forall i :: 0 <= i < |p.versions| ==>
          p'.versions[i].addr == p.versions[i].addr && (p'.versions[i].life.Gone? <==> p.versions[i].life.Gone?))
  }

  predicate IdleStays(p: P.State, p': P.State, begins: bool, t: nat) {
    && |p'.pcs| == |p.pcs|
    && forall u :: 0 <= u < |p.pcs| && p.pcs[u].Idle? && !(begins && u == t) ==> p'.pcs[u].Idle?
  }

  lemma PlainTenants(p: P.State, pe: P.Event)
    requires PI.Inv(p) && P.Enabled(p, pe) && IsPlain(pe)
    ensures SameTenants(p, P.Apply(p, pe))
  {
    if pe.Acquire? { assert PI.SlotOk(p, pe.slot); }
    else if pe.Release? { PI.HeldLife(p, pe.hold); }
    else if pe.ExchangeSwap? { SwapTenants(p, pe.t); }
    else if pe.CompareLoad? || pe.CompareCas? { CompareTenants(p, pe); }
    else if !pe.FreeVersion? { DisposalTenants(p, pe); }
  }

  lemma CompareTenants(p: P.State, pe: P.Event)
    requires PI.Inv(p) && P.Enabled(p, pe) && (pe.CompareLoad? || pe.CompareCas?)
    ensures SameTenants(p, P.Apply(p, pe))
  {
    assert PI.PcOk(p, pe.t);
    if pe.CompareCas? { SwapTenants(p, pe.t); }
  }

  lemma DisposalTenants(p: P.State, pe: P.Event)
    requires PI.Inv(p) && P.Enabled(p, pe) && (pe.DetachLoad? || pe.DetachCas? || pe.ClaimFinal? || pe.RunCallback?)
    ensures SameTenants(p, P.Apply(p, pe))
  {
    assert PI.PcOk(p, pe.t);
  }

  lemma SwapTenants(p: P.State, t: nat)
    requires PI.Inv(p) && P.AtPc(p, t) && (p.pcs[t].ExchangeReady? || p.pcs[t].CompareLoop?)
    ensures PI.CanSwap(p, t) && SameTenants(p, PI.Swapped(p, t))
  {
    PI.SwapKeeps(p, t);
    assert PI.PcOk(p, t) && PI.SlotOk(p, p.pcs[t].slot);
  }

  function ThreadOf(pe: P.Event): nat {
    if BeginsProtocolCall(pe) then pe.t else 0
  }

  lemma PlainThreads(p: P.State, pe: P.Event)
    requires P.Enabled(p, pe) && IsPlain(pe)
    ensures IdleStays(p, P.Apply(p, pe), BeginsProtocolCall(pe), ThreadOf(pe))
  {
  }

  // Every step keeps the link.

  lemma AllocatorStepLinks(s: State, ae: A.Event)
    requires Inv(s) && Enabled(s, AllocatorStep(ae))
    ensures Link(Apply(s, AllocatorStep(ae)))
  {
    var s' := Apply(s, AllocatorStep(ae));
    AllocatorThreads(s.a, ae);
    forall t | 0 <= t < |s'.p.pcs| ensures OneCallAtATime(s', t) { assert OneCallAtATime(s, t); }
    forall i | 0 <= i < |s'.p.versions| ensures Housed(s', i) {
      assert Housed(s, i);
      InternalKeepsAllocated(s.a, ae, s.p.versions[i].addr);
    }
    forall h: U32 ensures Inhabited(s', h) {
      assert Inhabited(s, h);
      InternalKeepsAllocated(s.a, ae, h);
    }
  }

  lemma ReclaimLinks(s: State, ae: A.Event, memory: map<U32, Word>)
    requires Inv(s) && Enabled(s, Reclaim(ae, memory))
    ensures Link(Apply(s, Reclaim(ae, memory)))
    ensures P.CanClobber(s.p, memory)
  {
    var s' := Apply(s, Reclaim(ae, memory));
    AllocatorThreads(s.a, ae);
    assert AI.PcOk(s.a, ae.t);
    AS.FullMeansAllReturned(s.a, s.a.pcs[ae.t].c);
    forall t | 0 <= t < |s'.p.pcs| ensures OneCallAtATime(s', t) { assert OneCallAtATime(s, t); }
    forall i | 0 <= i < |s'.p.versions|
      ensures Housed(s', i)
      ensures s.p.versions[i].life.Gone?
        || (s.p.versions[i].addr in memory && memory[s.p.versions[i].addr] == P.InnerAt(s.p, s.p.versions[i].addr))
    {
      assert Housed(s, i) && PI.VersionOk(s.p, i);
      DropKeepsAllocated(s.a, ae, s.p.versions[i].addr);
    }
    forall h: U32 ensures Inhabited(s', h) {
      assert Inhabited(s, h);
      DropKeepsAllocated(s.a, ae, h);
    }
  }

  lemma ProtocolStepLinks(s: State, pe: P.Event)
    requires Inv(s) && Enabled(s, ProtocolStep(pe))
    ensures Link(Apply(s, ProtocolStep(pe)))
  {
    var s' := Apply(s, ProtocolStep(pe));
    PlainTenants(s.p, pe);
    PlainThreads(s.p, pe);
    SameTenantsLink(s, s', BeginsProtocolCall(pe), ThreadOf(pe));
  }

  lemma SameTenantsLink(s: State, s': State, begins: bool, t: nat)
    requires Link(s) && s' == s.(p := s'.p) && SameTenants(s.p, s'.p) && IdleStays(s.p, s'.p, begins, t)
    requires begins ==> OutsideAllocator(s, t)
    ensures Link(s')
  {
    forall u | 0 <= u < |s'.p.pcs| ensures OneCallAtATime(s', u) { assert OneCallAtATime(s, u); }
    forall i | 0 <= i < |s'.p.versions| ensures Housed(s', i) { assert Housed(s, i); }
    forall h: U32 ensures Inhabited(s', h) { assert Inhabited(s, h); }
  }

  /** The handle read from a version is the version's own, although the word doubles as a link. */
  lemma SelfHandle(s: State, i: nat)
    requires Inv(s) && P.IsLive(s.p, i)
    ensures A.HasSlot(s.a, s.p.versions[i].addr) && A.WordAt(s.a, s.p.versions[i].addr) == s.p.versions[i].addr
  {
    assert Housed(s, i);
    AT.OverlaidWord(s.a, s.p.versions[i].addr);
  }

  /** Beginning a publishing call in the whole library is the protocol's step with the right handles. */
  lemma BeginIsProtocolStep(s: State, e: Event)
    requires Inv(s) && Enabled(s, e) && (e.BeginExchange? || e.BeginCompare?)
    ensures e.BeginExchange? ==> P.CanExchange(s.p, e.t, e.slot, e.offer, OfferHandle(s, e.offer))
    ensures e.BeginCompare? ==>
      P.CanCompare(s.p, e.t, e.slot, e.expected, ExpectedHandle(s, e.expected), e.offer, OfferHandle(s, e.offer))
    ensures Link(Apply(s, e))
  {
    if e.offer.Some? { SelfHandle(s, e.offer.value); }
    if e.BeginCompare? && e.expected.Some? {
      PI.HeldLife(s.p, e.expected.value);
      SelfHandle(s, s.p.holds[e.expected.value].inc);
    }
    SameTenantsLink(s, Apply(s, e), true, e.t);
  }

  lemma MakeLinks(s: State, t: nat)
    requires Inv(s) && Enabled(s, MakeVersion(t))
    ensures P.CanMake(s.p, s.a.pcs[t].handle)
    ensures Link(Apply(s, MakeVersion(t)))
  {
    var s' := Apply(s, MakeVersion(t));
    var g := s.a.pcs[t].handle;
    assert AI.PcOk(s.a, t);
    SlotIsNotNull(s.a, g);
    forall u | 0 <= u < |s'.p.pcs| ensures OneCallAtATime(s', u) { assert OneCallAtATime(s, u); }
    forall i | 0 <= i < |s'.p.versions|
      ensures Housed(s', i) && (i < |s.p.versions| ==> s.p.versions[i].life.Gone? || s.p.versions[i].addr != g)
    {
      if i < |s.p.versions| {
        assert Housed(s, i);
        SlotIdentity(s.p.versions[i].addr, g);
      }
    }
    forall h: U32 ensures Inhabited(s', h) {
      assert Inhabited(s, h);
      SlotIdentity(h, g);
    }
  }

  lemma SlotIsNotNull(a: A.State, h: U32)
    requires AI.Inv(a) && A.HasSlot(a, h)
    ensures h != HANDLE_NULL
  {
    assert AI.ArenaOk(a, ArenaOf(h));
  }

  lemma EnterFreeLinks(s: State, t: nat)
    requires Inv(s) && Enabled(s, EnterFree(t))
    ensures A.Enabled(s.a, A.PushBegin(t, s.p.pcs[t].addr))
    ensures Link(Apply(s, EnterFree(t)))
  {
    var s' := Apply(s, EnterFree(t));
    var i, g := s.p.pcs[t].inc, s.p.pcs[t].addr;
    assert PI.PcOk(s.p, t) && Housed(s, i);
    forall u | 0 <= u < |s'.p.pcs| ensures OneCallAtATime(s', u) { assert OneCallAtATime(s, u); }
    forall j | 0 <= j < |s'.p.versions| ensures Housed(s', j) {
      assert Housed(s, j);
      if j != i { assert PI.Apart(s.p, i, j); }
      SlotIdentity(s.p.versions[j].addr, g);
    }
    forall h: U32 ensures Inhabited(s', h) {
      assert Inhabited(s, h);
      SlotIdentity(h, g);
    }
  }

  // Whole runs.

  /** The protocol's part of a step of the whole library, if it has one. */
  function ProtocolPart(s: State, e: Event): Option<P.Event>
    requires Enabled(s, e)
  {
    match e
    case AllocatorStep(_) => None
    case Reclaim(_, memory) => Some(P.Clobber(memory))
    case MakeVersion(t) => Some(P.Make(s.a.pcs[t].handle))
    case ProtocolStep(pe) => Some(pe)
    case BeginExchange(t, slot, offer) => Some(P.ExchangeBegin(t, slot, offer, OfferHandle(s, offer)))
    case BeginCompare(t, slot, expected, offer) =>
      Some(P.CompareBegin(t, slot, expected, ExpectedHandle(s, expected), offer, OfferHandle(s, offer)))
    case EnterFree(t) => Some(P.EnterFree(t))
  }

  /** The allocator's part of a step of the whole library, if it has one. */
  function AllocatorPart(s: State, e: Event): Option<A.Event>
    requires Enabled(s, e)
  {
    match e
    case AllocatorStep(ae) => Some(ae)
    case Reclaim(ae, _) => Some(ae)
    case MakeVersion(t) => Some(A.Deliver(t))
    case EnterFree(t) => Some(A.PushBegin(t, s.p.pcs[t].addr))
    case _ => None
  }

  lemma StepLinks(s: State, e: Event)
    requires Inv(s) && Enabled(s, e)
    ensures Link(Apply(s, e))
  {
    match e
    case AllocatorStep(ae) => AllocatorStepLinks(s, ae);
    case Reclaim(ae, memory) => ReclaimLinks(s, ae, memory);
    case MakeVersion(t) => MakeLinks(s, t);
    case ProtocolStep(pe) => ProtocolStepLinks(s, pe);
    case BeginExchange(_, _, _) => BeginIsProtocolStep(s, e);
    case BeginCompare(_, _, _, _) => BeginIsProtocolStep(s, e);
    case EnterFree(t) => EnterFreeLinks(s, t);
  }

  /** A step of the whole library is a step of the protocol or leaves it alone: the allocator
      always provides the fresh address and the right handles that the protocol assumes. */
  lemma ProjectsToProtocol(s: State, e: Event)
    requires Inv(s) && Enabled(s, e)
    ensures var s', pe := Apply(s, e), ProtocolPart(s, e);
      if pe.Some? then P.Enabled(s.p, pe.value) && s'.p == P.Apply(s.p, pe.value) else s'.p == s.p
  {
    if e.Reclaim? { ReclaimLinks(s, e.ae, e.memory); }
    else if e.MakeVersion? { MakeLinks(s, e.t); }
    else if e.BeginExchange? || e.BeginCompare? { BeginIsProtocolStep(s, e); }
  }

  /** A step of the whole library is a step of the allocator or leaves it alone: the protocol
      gives back only allocated slots, once each. */
  lemma ProjectsToAllocator(s: State, e: Event)
    requires Inv(s) && Enabled(s, e)
    ensures var s', ae := Apply(s, e), AllocatorPart(s, e);
      if ae.Some? then A.Enabled(s.a, ae.value) && s'.a == A.Apply(s.a, ae.value) else s'.a == s.a
  {
    if e.EnterFree? { EnterFreeLinks(s, e.t); }
  }

  /** Every step of the whole library keeps the invariant, as long as no detached version is held
      a positive multiple of 2^32 times. */
  lemma StepKeeps(s: State, e: Event)
    requires Inv(s) && Enabled(s, e) && PT.NeverReadsZero(Apply(s, e).p)
    ensures Inv(Apply(s, e))
  {
    StepLinks(s, e);
    ProjectsToProtocol(s, e);
    ProjectsToAllocator(s, e);
    var pe, ae := ProtocolPart(s, e), AllocatorPart(s, e);
    if pe.Some? { PT.StepSafeExactly(s.p, pe.value); }
    if ae.Some? { AS.StepKeeps(s.a, ae.value); }
  }

  ghost predicate IsRun(states: seq<State>, events: seq<Event>) {
    && |states| == |events| + 1
    && (exists slots: nat, threads: nat, size: nat, maxThreads: nat ::
          2 <= size < SLOT_SPAN && states[0] == Init(slots, threads, size, maxThreads))
    && forall k {:trigger Enabled(states[k], events[k])} :: 0 <= k < |events| ==>
      Enabled(states[k], events[k]) && states[k + 1] == Apply(states[k], events[k])
  }

  lemma {:induction false} RunInv(states: seq<State>, events: seq<Event>, k: nat)
    requires IsRun(states, events) && k < |states|
    requires forall j :: 0 <= j <= k ==> PT.NeverReadsZero(states[j].p)
    ensures Inv(states[k])
    decreases k
  {
    if k == 0 {
      var slots: nat, threads: nat, size: nat, maxThreads: nat :|
        2 <= size < SLOT_SPAN && states[0] == Init(slots, threads, size, maxThreads);
      InitKeeps(slots, threads, size, maxThreads);
    } else {
      RunInv(states, events, k - 1);
      assert PT.NeverReadsZero(states[k].p);
      StepKeeps(states[k - 1], events[k - 1]);
    }
  }

  /** No premature reuse: the slot of a version that is current, held, or swapped out but not yet
      detached is on no free chain and in no allocation or free in progress, and its word still
      names it. */
  lemma NoPrematureReuse(s: State, i: nat)
    requires Inv(s) && PT.StillNeeded(s.p, i)
    ensures P.IsLive(s.p, i) && s.p.versions[i].callbacks == 0
    ensures var h := s.p.versions[i].addr;
      IsAllocated(s.a, h) && A.WordAt(s.a, h) == h && h in s.tenants && s.tenants[h] == i
  {
    PT.NoPrematureReclamation(s.p, i);
    assert Housed(s, i);
    SelfHandle(s, i);
  }

  /** A handle found in a control block always resolves to the slot of the current version. */
  lemma ControlBlockResolves(s: State, x: nat)
    requires Inv(s) && x < |s.p.control| && s.p.control[x].lo != HANDLE_NULL
    ensures s.p.current[x].Some? && IsAllocated(s.a, s.p.control[x].lo)
    ensures s.p.control[x].lo in s.tenants && s.tenants[s.p.control[x].lo] == s.p.current[x].value
  {
    assert PI.SlotOk(s.p, x);
    assert Housed(s, s.p.current[x].value);
  }

  /** Nothing is going on and nothing is in use: no call in progress, every control block empty,
      every hold released, every unpublished version freed. */
  predicate Quiescent(s: State) {
    && (forall t :: 0 <= t < |s.p.pcs| ==> s.p.pcs[t].Idle?)
    && (forall t :: 0 <= t < |s.a.pcs| ==> s.a.pcs[t].Idle?)
    && (forall x :: 0 <= x < |s.p.control| ==> s.p.control[x].lo == HANDLE_NULL)
    && s.p.holds == map[]
    && (forall i :: 0 <= i < |s.p.versions| ==> !s.p.versions[i].life.Private?)
  }

  /** Slot `j` of arena `a` is free: on the shared stack or on the owner's chain. */
  predicate IsFree(s: State, a: nat, j: nat) {
    a in s.a.arenas && j < |s.a.arenas[a].locs| && (s.a.arenas[a].locs[j].OnStack? || s.a.arenas[a].locs[j].OnLocal?)
  }

  /** Full drain: then the callback has run exactly once for every version ever made, and every
      usable slot of every active arena is back on its shared stack or on its owner's chain. */
  lemma FullDrain(s: State)
    requires Inv(s) && Quiescent(s)
    ensures forall i :: 0 <= i < |s.p.versions| ==> s.p.versions[i].life.Gone? && s.p.versions[i].callbacks == 1
    ensures forall a: nat, j: nat :: AT.IsActive(s.a, a) && 0 < j < s.a.size ==> IsFree(s, a, j)
  {
    forall i | 0 <= i < |s.p.versions| ensures s.p.versions[i].life.Gone? && s.p.versions[i].callbacks == 1 {
      DrainedVersion(s, i);
    }
    forall a: nat, j: nat | AT.IsActive(s.a, a) && 0 < j < s.a.size ensures IsFree(s, a, j) {
      DrainedSlot(s, a, j);
    }
  }

  /** The same of the end of every run. */
  lemma RunDrains(states: seq<State>, events: seq<Event>)
    requires IsRun(states, events) && Quiescent(states[|events|])
    requires forall j :: 0 <= j < |states| ==> PT.NeverReadsZero(states[j].p)
    ensures var s := states[|events|];
      && (forall i :: 0 <= i < |s.p.versions| ==> s.p.versions[i].life.Gone? && s.p.versions[i].callbacks == 1)
      && (forall a: nat, j: nat :: AT.IsActive(s.a, a) && 0 < j < s.a.size ==> IsFree(s, a, j))
  {
    RunInv(states, events, |events|);
    FullDrain(states[|events|]);
  }

  lemma DrainedSlot(s: State, a: nat, j: nat)
    requires Inv(s) && Quiescent(s) && AT.IsActive(s.a, a) && 0 < j < s.a.size
    ensures IsFree(s, a, j)
  {
    AT.EverySlotInOnePlace(s.a, a, j);
    HandleRoundTrip(a, j);
    assert Inhabited(s, HandleOf(a, j));
    if IsAllocated(s.a, HandleOf(a, j)) { DrainedVersion(s, s.tenants[HandleOf(a, j)]); }
  }

  lemma DrainedVersion(s: State, i: nat)
    requires Inv(s) && Quiescent(s) && i < |s.p.versions|
    ensures s.p.versions[i].life.Gone? && s.p.versions[i].callbacks == 1
  {
    assert PI.VersionOk(s.p, i);
    assert P.Holders(s.p.holds, i) == {};
    forall x | 0 <= x < |s.p.current| ensures s.p.current[x] == None { PT.EmptyExactly(s.p, x); }
  }
}
