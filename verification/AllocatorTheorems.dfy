module AllocatorTheorems {
  // What the allocator and the registry promise, in every reachable state.

  import opened Words
  import opened Handles
  import opened Allocator
  import opened AllocatorInvariant
  import opened AllocatorSteps

  ghost predicate IsRun(states: seq<State>, events: seq<Event>) {
    && |states| == |events| + 1
    && (exists size: nat, maxThreads: nat, threads: nat ::
          2 <= size < SLOT_SPAN && states[0] == Init(size, maxThreads, threads))
    && forall k {:trigger Enabled(states[k], events[k])} :: 0 <= k < |events| ==>
      Enabled(states[k], events[k]) && states[k + 1] == Apply(states[k], events[k])
  }

  /** The invariant holds in every state of every run; in particular the assertion after the
      batch steal never fails. */
  lemma {:induction false} RunInv(states: seq<State>, events: seq<Event>, k: nat)
    requires IsRun(states, events) && k < |states|
    ensures Inv(states[k]) && !states[k].failed
    decreases k
  {
    if k == 0 {
      var size: nat, maxThreads: nat, threads: nat :|
        2 <= size < SLOT_SPAN && states[0] == Init(size, maxThreads, threads);
      InitKeeps(size, maxThreads, threads);
    } else {
      RunInv(states, events, k - 1);
      StepKeeps(states[k - 1], events[k - 1]);
    }
  }

  predicate IsActive(s: State, a: nat) {
    a in s.arenas && HasContext(s, s.arenas[a].owner) && s.arenas[a].pos < s.contexts[s.arenas[a].owner].value.active
  }

  // Chains, as memory shows them.

  /** The handle reached from `h` by following `n` links through the memory of an arena. */
  function Follow(words: seq<U32>, h: U32, n: nat): U32
    decreases n
  {
    if n == 0 || SlotOf(h) >= |words| then h else Follow(words, words[SlotOf(h)], n - 1)
  }

  /** Each slot of a chain holds the link to the slot below it. */
  predicate Linked(words: seq<U32>, a: nat, size: nat, chain: seq<nat>)
    requires a < MAX_ARENAS && InChain(size, chain) && |words| == size
  {
    forall p {:trigger Below(a, chain, p)} :: 0 <= p < |chain| ==> words[chain[p]] == Below(a, chain, p)
  }

  lemma {:induction false} WalkChain(words: seq<U32>, a: nat, size: nat, chain: seq<nat>, p: nat, n: nat)
    requires a < MAX_ARENAS && size < SLOT_SPAN && |words| == size && InChain(size, chain)
    requires Linked(words, a, size, chain)
    requires n <= p <= |chain|
    ensures Follow(words, Below(a, chain, p), n) == Below(a, chain, p - n)
    decreases n
  {
    if n > 0 {
      HandleRoundTrip(a, chain[p - 1]);
      assert words[chain[p - 1]] == Below(a, chain, p - 1);
      WalkChain(words, a, size, chain, p - 1, n - 1);
    }
  }

  /** Following links from the top of a chain passes its slots from the top down and ends at the sentinel. */
  lemma ChainWalk(words: seq<U32>, a: nat, size: nat, chain: seq<nat>)
    requires a < MAX_ARENAS && size < SLOT_SPAN && |words| == size && InChain(size, chain)
    requires Linked(words, a, size, chain)
    ensures Follow(words, Below(a, chain, |chain|), |chain|) == Sentinel(a)
    ensures forall n: nat :: n < |chain| ==>
      var h := Follow(words, Below(a, chain, |chain|), n);
      h == HandleOf(a, chain[|chain| - 1 - n]) && IsHandle(h, a, chain[|chain| - 1 - n])
  {
    WalkChain(words, a, size, chain, |chain|, |chain|);
    forall n: nat | n < |chain|
      ensures var h := Follow(words, Below(a, chain, |chain|), n);
        h == HandleOf(a, chain[|chain| - 1 - n]) && IsHandle(h, a, chain[|chain| - 1 - n])
    {
      WalkChain(words, a, size, chain, |chain|, n);
      HandleRoundTrip(a, chain[|chain| - 1 - n]);
    }
  }

  /** The shared stack of an active arena, in memory and by its depth tag. */
  lemma StackInMemory(s: State, a: nat)
    requires a in s.arenas && ArenaOk(s, a) && IsActive(s, a) && SizeOk(s)
    ensures |s.arenas[a].stack| < s.size
    ensures Linked(s.arenas[a].words, a, s.size, s.arenas[a].stack)
    ensures s.arenas[a].top == Word(|s.arenas[a].stack|, Below(a, s.arenas[a].stack, |s.arenas[a].stack|))
  {
    var arena := s.arenas[a];
    StackBound(arena, s.size);
    WrapSmall(|arena.stack|);
    forall p | 0 <= p < |arena.stack| ensures arena.words[arena.stack[p]] == Below(a, arena.stack, p) {
      assert SlotOk(s, a, arena, s.contexts[arena.owner].value, arena.stack[p]);
    }
  }

  /** The local chain of a context, in memory. */
  lemma LocalInMemory(s: State, c: nat)
    requires Inv(s) && HasContext(s, c) && s.contexts[c].value.chain != []
    ensures var ctx := s.contexts[c].value;
      && IsActive(s, ctx.home) && s.arenas[ctx.home].owner == c && ctx.home < MAX_ARENAS
      && |s.arenas[ctx.home].words| == |s.arenas[ctx.home].locs| == s.size < SLOT_SPAN
      && InChain(s.size, ctx.chain) && Linked(s.arenas[ctx.home].words, ctx.home, s.size, ctx.chain)
      && ctx.localTop == Below(ctx.home, ctx.chain, |ctx.chain|)
      && forall p :: 0 <= p < |ctx.chain| ==> s.arenas[ctx.home].locs[ctx.chain[p]] == OnLocal(p)
  {
    var ctx := s.contexts[c].value;
    assert ContextOk(s, c, ctx);
    assert ArenaOk(s, ctx.home);
    forall p | 0 <= p < |ctx.chain| ensures s.arenas[ctx.home].words[ctx.chain[p]] == Below(ctx.home, ctx.chain, p) {
      assert SlotOk(s, ctx.home, s.arenas[ctx.home], ctx, ctx.chain[p]);
    }
  }

  /** The depth tag.  In every active arena the upper half of `top_handle` is the number of links
      from the top to the sentinel, and the slots passed on the way are distinct usable slots of
      this arena. */
  lemma DepthTagIsChainLength(s: State, a: nat)
    requires Inv(s) && IsActive(s, a)
    ensures a < MAX_ARENAS && |s.arenas[a].locs| == s.size && s.arenas[a].top.hi < s.size
    ensures Follow(s.arenas[a].words, s.arenas[a].top.lo, s.arenas[a].top.hi) == Sentinel(a)
    ensures forall n: nat :: n < s.arenas[a].top.hi ==>
      var h := Follow(s.arenas[a].words, s.arenas[a].top.lo, n);
      ArenaOf(h) == a && 0 < SlotOf(h) < s.size && s.arenas[a].locs[SlotOf(h)] == OnStack(s.arenas[a].top.hi - 1 - n)
  {
    assert ArenaOk(s, a);
    StackInMemory(s, a);
    ChainWalk(s.arenas[a].words, a, s.size, s.arenas[a].stack);
  }

  /** The local chain of a context, followed through memory, stays in one active arena of that
      context, passes distinct usable slots and ends at the sentinel. */
  lemma LocalChainEndsAtSentinel(s: State, c: nat)
    requires Inv(s) && HasContext(s, c) && s.contexts[c].value.chain != []
    ensures var ctx := s.contexts[c].value; var n := |ctx.chain|;
      && IsActive(s, ctx.home) && s.arenas[ctx.home].owner == c
      && ctx.home < MAX_ARENAS && |s.arenas[ctx.home].locs| == s.size
      && Follow(s.arenas[ctx.home].words, ctx.localTop, n) == Sentinel(ctx.home)
      && (forall m: nat :: m < n ==>
            var h := Follow(s.arenas[ctx.home].words, ctx.localTop, m);
            && ArenaOf(h) == ctx.home && 0 < SlotOf(h) < s.size
            && s.arenas[ctx.home].locs[SlotOf(h)] == OnLocal(n - 1 - m))
  {
    LocalInMemory(s, c);
    ChainWalk(s.arenas[s.contexts[c].value.home].words, s.contexts[c].value.home, s.size, s.contexts[c].value.chain);
  }

  /** Slot `j` of arena `a` is really where its place says: reachable from the shared top, reachable
      from the owner's local top, in the hands of a thread inside an allocation or inside
      free_slot, or allocated with its own handle in its word. */
  predicate ReallyThere(s: State, a: nat, j: nat)
    requires a in s.arenas && HasContext(s, s.arenas[a].owner) && a < MAX_ARENAS && j < SLOT_SPAN
    requires j < |s.arenas[a].locs| && j < |s.arenas[a].words|
  {
    var arena := s.arenas[a];
    var ctx := s.contexts[arena.owner].value;
    match arena.locs[j]
    case Absent => false
    case OnStack(p) => p < arena.top.hi && Follow(arena.words, arena.top.lo, arena.top.hi - 1 - p) == HandleOf(a, j)
    case OnLocal(p) =>
      ctx.home == a && p < |ctx.chain| && Follow(arena.words, ctx.localTop, |ctx.chain| - 1 - p) == HandleOf(a, j)
    case InHand(t) => t < |s.pcs| && s.pcs[t] == Got(HandleOf(a, j))
    case Pushing(t) => t < |s.pcs| && IsPush(s.pcs[t]) && s.pcs[t].handle == HandleOf(a, j)
    case Allocated => arena.words[j] == HandleOf(a, j)
  }

  lemma SlotReallyThere(s: State, a: nat, j: nat)
    requires a in s.arenas && ArenaOk(s, a) && IsActive(s, a) && SizeOk(s) && 0 < j < s.size
    requires s.arenas[a].locs[j].OnLocal? ==>
      var ctx := s.contexts[s.arenas[a].owner].value;
      Linked(s.arenas[a].words, a, s.size, ctx.chain) && ctx.localTop == Below(a, ctx.chain, |ctx.chain|)
    ensures ReallyThere(s, a, j)
  {
    var arena := s.arenas[a];
    StackInMemory(s, a);
    assert SlotOk(s, a, arena, s.contexts[arena.owner].value, j);
    match arena.locs[j]
    case OnStack(p) => ChainWalk(arena.words, a, s.size, arena.stack);
    case OnLocal(p) => ChainWalk(arena.words, a, s.size, s.contexts[arena.owner].value.chain);
    case InHand(t) => EveryWordIsAHandle(s.pcs[t].handle);
    case Pushing(t) => EveryWordIsAHandle(s.pcs[t].handle);
    case _ =>
  }

  /** The slot with handle `h` is passed on the way from the shared top of arena `a` to the sentinel. */
  predicate OnSharedStack(s: State, a: nat, h: U32)
    requires a in s.arenas
  {
    exists n :: 0 <= n < s.arenas[a].top.hi && Follow(s.arenas[a].words, s.arenas[a].top.lo, n) == h
  }

  /** The slot with handle `h` is passed on the way from the local top of context `c` to the sentinel. */
  predicate OnLocalChain(s: State, c: nat, h: U32) {
    && HasContext(s, c) && s.contexts[c].value.chain != [] && s.contexts[c].value.home in s.arenas
    && var ctx := s.contexts[c].value;
      exists n :: 0 <= n < |ctx.chain| && Follow(s.arenas[ctx.home].words, ctx.localTop, n) == h
  }

  predicate BeingReturned(s: State, h: U32) {
    exists t :: 0 <= t < |s.pcs| && s.pcs[t] == Got(h)
  }

  predicate BeingPushed(s: State, h: U32) {
    exists t :: 0 <= t < |s.pcs| && IsPush(s.pcs[t]) && s.pcs[t].handle == h
  }

  lemma SharedExactly(s: State, a: nat, j: nat)
    requires Inv(s) && IsActive(s, a) && 0 < j < s.size && a < MAX_ARENAS && |s.arenas[a].locs| == s.size < SLOT_SPAN
    ensures OnSharedStack(s, a, HandleOf(a, j)) <==> s.arenas[a].locs[j].OnStack?
  {
    var arena, h := s.arenas[a], HandleOf(a, j);
    DepthTagIsChainLength(s, a);
    HandleRoundTrip(a, j);
    if arena.locs[j].OnStack? {
      SlotPlaced(s, a, j);
      assert Follow(arena.words, arena.top.lo, arena.top.hi - 1 - arena.locs[j].index) == h;
    }
  }

  lemma LocalExactly(s: State, a: nat, j: nat, c: nat)
    requires Inv(s) && IsActive(s, a) && 0 < j < s.size && a < MAX_ARENAS && |s.arenas[a].locs| == s.size < SLOT_SPAN
    ensures OnLocalChain(s, c, HandleOf(a, j)) <==> s.arenas[a].locs[j].OnLocal? && s.arenas[a].owner == c
  {
    var arena, h := s.arenas[a], HandleOf(a, j);
    HandleRoundTrip(a, j);
    if HasContext(s, c) && s.contexts[c].value.chain != [] { LocalChainEndsAtSentinel(s, c); }
    if arena.locs[j].OnLocal? && arena.owner == c {
      SlotPlaced(s, a, j);
      var ctx := s.contexts[c].value;
      assert Follow(arena.words, ctx.localTop, |ctx.chain| - 1 - arena.locs[j].index) == h;
    }
  }

  lemma InFlightExactly(s: State, a: nat, j: nat)
    requires Inv(s) && IsActive(s, a) && 0 < j < s.size && a < MAX_ARENAS && |s.arenas[a].locs| == s.size < SLOT_SPAN
    ensures BeingReturned(s, HandleOf(a, j)) <==> s.arenas[a].locs[j].InHand?
    ensures BeingPushed(s, HandleOf(a, j)) <==> s.arenas[a].locs[j].Pushing?
  {
    var arena, h := s.arenas[a], HandleOf(a, j);
    HandleRoundTrip(a, j);
    SlotPlaced(s, a, j);
    forall t | 0 <= t < |s.pcs| && (s.pcs[t].Got? || IsPush(s.pcs[t])) && s.pcs[t].handle == h
      ensures if s.pcs[t].Got? then arena.locs[j] == InHand(t) else arena.locs[j] == Pushing(t)
    {
      assert PcOk(s, t);
    }
  }

  lemma SlotPlaced(s: State, a: nat, j: nat)
    requires Inv(s) && IsActive(s, a) && 0 < j < s.size
    ensures a < MAX_ARENAS && j < |s.arenas[a].locs| == |s.arenas[a].words| < SLOT_SPAN
    ensures ReallyThere(s, a, j)
  {
    assert ArenaOk(s, a);
    if s.arenas[a].locs[j].OnLocal? {
      assert SlotOk(s, a, s.arenas[a], s.contexts[s.arenas[a].owner].value, j);
      LocalInMemory(s, s.arenas[a].owner);
    }
    SlotReallyThere(s, a, j);
  }

  /** Conservation.  Every usable slot of every active arena is in exactly one place: memory leads to it
      from the shared top of its arena, from the local top of one context, it is in the hands of an
      allocating thread or of a pushing one, or else it is allocated with its own handle in its word. */
  lemma EverySlotInOnePlace(s: State, a: nat, j: nat)
    requires Inv(s) && IsActive(s, a) && 0 < j < s.size
    ensures a < MAX_ARENAS && j < |s.arenas[a].locs| == |s.arenas[a].words| < SLOT_SPAN
    ensures ReallyThere(s, a, j)
    ensures var h, loc := HandleOf(a, j), s.arenas[a].locs[j];
      && (OnSharedStack(s, a, h) <==> loc.OnStack?)
      && (forall c :: 0 <= c < |s.contexts| ==> (OnLocalChain(s, c, h) <==> loc.OnLocal? && s.arenas[a].owner == c))
      && (BeingReturned(s, h) <==> loc.InHand?) && (BeingPushed(s, h) <==> loc.Pushing?)
  {
    assert ArenaOk(s, a);
    SlotPlaced(s, a, j);
    SharedExactly(s, a, j);
    forall c | 0 <= c < |s.contexts|
      ensures OnLocalChain(s, c, HandleOf(a, j)) <==> s.arenas[a].locs[j].OnLocal? && s.arenas[a].owner == c
    {
      LocalExactly(s, a, j, c);
    }
    InFlightExactly(s, a, j);
  }

  /** The overlaid word of an allocated slot is the slot's own handle. */
  lemma OverlaidWord(s: State, h: U32)
    requires Inv(s) && HasSlot(s, h) && LocAt(s, h).Allocated?
    ensures WordAt(s, h) == h && SlotOf(h) > 0 && IsActive(s, ArenaOf(h))
  {
    var arena := s.arenas[ArenaOf(h)];
    assert ArenaOk(s, ArenaOf(h));
    assert IsActive(s, ArenaOf(h)) ==> SlotOk(s, ArenaOf(h), arena, s.contexts[arena.owner].value, SlotOf(h));
    EveryWordIsAHandle(h);
  }

  /** Giving an arena back on the strength of its depth discards no slot that anyone has. */
  lemma ReclaimDiscardsNothing(s: State, e: Event)
    requires Inv(s) && Enabled(s, e) && (e.Drop? || e.DropOnExit?)
    ensures var a := Last(s, s.pcs[e.t].c);
      && IsActive(s, a) && !IsActive(Apply(s, e), a)
      && forall j: nat :: 0 < j < s.size ==> j < |s.arenas[a].locs| && s.arenas[a].locs[j].OnStack?
  {
    assert PcOk(s, e.t);
    FullMeansAllReturned(s, s.pcs[e.t].c);
    OwnedArena(s, s.pcs[e.t].c, s.contexts[s.pcs[e.t].c].value.active - 1);
  }

  // The registry.

  /** The context that a thread owns: through thread-local storage, or while it takes one over or gives it up. */
  predicate UsesContext(s: State, t: nat, c: nat) {
    && AtPc(s, t)
    && (|| s.tls[t] == Some(c)
        || ((s.pcs[t].RegAdopt? || IsExiting(s.pcs[t]) || IsAlloc(s.pcs[t])) && s.pcs[t].c == c))
  }

  /** Single owner: no two threads ever use the same context. */
  lemma SingleOwner(s: State, t: nat, u: nat, c: nat)
    requires Inv(s) && UsesContext(s, t, c) && UsesContext(s, u, c)
    ensures t == u
    ensures c < |s.used| && s.used[c]
  {
    assert PcOk(s, t) && PcOk(s, u) && TlsOk(s, t) && TlsOk(s, u);
  }

  /** Only the thread that uses a context makes it or changes it. */
  lemma OnlyOwnerChanges(s: State, e: Event, c: nat)
    requires Enabled(s, e) && !UsesContext(s, e.t, c)
    ensures |Apply(s, e).contexts| == |s.contexts| && Apply(s, e).size == s.size
    ensures c < |s.contexts| ==> Apply(s, e).contexts[c] == s.contexts[c]
  {
  }

  // Hand-over of a context from an exiting thread to an adopting one.

  /** Arena `a` has lost nothing from `s` to `s'`: same owner and position, more only on top of its
      shared stack, and every slot of the local chain in its place with its link. */
  predicate ArenaKept(s: State, s': State, a: nat) {
    && a in s.arenas && a in s'.arenas
    && var was, now := s.arenas[a], s'.arenas[a];
      && now.owner == was.owner && now.pos == was.pos && was.stack <= now.stack
      && |now.locs| == |was.locs| == |was.words| == |now.words|
      && forall j :: 0 <= j < |was.locs| && was.locs[j].OnLocal? ==>
           now.locs[j] == was.locs[j] && now.words[j] == was.words[j]
  }

  /** Context `c` and everything it owns have lost nothing from `s` to `s'`. */
  predicate ContextKept(s: State, s': State, c: nat) {
    && HasContext(s, c) && HasContext(s', c) && s'.contexts[c] == s.contexts[c]
    && forall a {:trigger ArenaKept(s, s', a)} :: a in s.arenas && s.arenas[a].owner == c ==> ArenaKept(s, s', a)
  }

  /** The steps of the owner's code that touch an arena. */
  predicate TouchesOwned(e: Event) {
    e.Drop? || e.DropOnExit? || e.Pop? || e.Steal? || e.Grow? || e.Setup?
  }

  /** The steps that touch the arena of a slot in flight. */
  predicate TouchesSlot(e: Event) {
    e.Deliver? || e.PushBegin? || e.StoreLink? || e.TryPush?
  }

  lemma OthersOwnedApart(s: State, d: nat, c: nat, a: nat, k: nat)
    requires Inv(s) && HasContext(s, d) && d != c && a in s.arenas && s.arenas[a].owner == c
    requires k < |s.contexts[d].value.owned|
    ensures s.contexts[d].value.owned[k] != a
  {
    OwnedArena(s, d, k);
  }

  /** The owner's code of another context leaves the arena alone. */
  lemma OwnerLeavesOthers(s: State, e: Event, c: nat, a: nat)
    requires Inv(s) && Enabled(s, e) && TouchesOwned(e) && !UsesContext(s, e.t, c) && a in s.arenas
    requires s.arenas[a].owner == c
    ensures a in Apply(s, e).arenas && Apply(s, e).arenas[a] == s.arenas[a]
  {
    assert PcOk(s, e.t);
    var d := s.pcs[e.t].c;
    var ctx := s.contexts[d].value;
    assert ContextOk(s, d, ctx);
    forall k | 0 <= k < |ctx.owned| ensures ctx.owned[k] != a { OthersOwnedApart(s, d, c, a, k); }
    if e.Pop? && ctx.chain != [] { TopOfChain(s, d); }
  }

  /** A slot in flight is on no local chain, and a push that lands extends the stack. */
  lemma SlotStepKeeps(s: State, e: Event, a: nat)
    requires Enabled(s, e) && TouchesSlot(e) && PcOk(s, e.t)
    requires a in s.arenas && |s.arenas[a].locs| == |s.arenas[a].words|
    ensures ArenaKept(s, Apply(s, e), a)
  {
  }

  lemma OthersTouchNothing(s: State, e: Event)
    requires Enabled(s, e) && !TouchesOwned(e) && !TouchesSlot(e)
    ensures Apply(s, e).arenas == s.arenas
  {
  }

  /** A step of a thread that does not use context `c` only pushes onto its arenas. */
  lemma OthersOnlyPush(s: State, e: Event, c: nat)
    requires Inv(s) && Enabled(s, e) && HasContext(s, c) && !UsesContext(s, e.t, c)
    ensures ContextKept(s, Apply(s, e), c)
  {
    OnlyOwnerChanges(s, e, c);
    forall a | a in s.arenas && s.arenas[a].owner == c ensures ArenaKept(s, Apply(s, e), a) {
      assert ArenaOk(s, a);
      if TouchesOwned(e) {
        OwnerLeavesOthers(s, e, c, a);
      } else if TouchesSlot(e) {
        assert PcOk(s, e.t);
        SlotStepKeeps(s, e, a);
      } else {
        OthersTouchNothing(s, e);
      }
    }
  }

  lemma KeptTrans(s: State, s': State, s'': State, c: nat)
    requires ContextKept(s, s', c) && ContextKept(s', s'', c)
    ensures ContextKept(s, s'', c)
  {
    forall a | a in s.arenas && s.arenas[a].owner == c ensures ArenaKept(s, s'', a) {
      assert ArenaKept(s, s', a) && ArenaKept(s', s'', a);
    }
  }

  /** While no step is taken by a thread that uses context `c`, the context does not change and its
      arenas only gain slots on their shared stacks. */
  lemma {:induction false} KeptWhileUnused(states: seq<State>, events: seq<Event>, j: nat, k: nat, c: nat)
    requires IsRun(states, events) && j <= k < |states| && HasContext(states[j], c)
    requires forall i :: j <= i < k ==> !UsesContext(states[i], events[i].t, c)
    ensures ContextKept(states[j], states[k], c)
    decreases k
  {
    RunInv(states, events, k);
    if j == k {
      assert forall a :: a in states[j].arenas ==> ArenaOk(states[j], a);
      assert forall a :: a in states[j].arenas ==> ArenaKept(states[j], states[j], a);
    } else {
      KeptWhileUnused(states, events, j, k - 1, c);
      RunInv(states, events, k - 1);
      OthersOnlyPush(states[k - 1], events[k - 1], c);
      KeptTrans(states[j], states[k - 1], states[k], c);
    }
  }

  /** Nobody uses context `c`, except a thread that has taken its id and is about to adopt it. */
  ghost predicate Orphaned(s: State, c: nat) {
    forall t: nat {:trigger UsesContext(s, t, c)} :: UsesContext(s, t, c) ==> s.pcs[t] == RegAdopt(c)
  }

  ghost predicate IsOnlyUser(s: State, u: nat, c: nat) {
    UsesContext(s, u, c) && forall t: nat {:trigger UsesContext(s, t, c)} :: UsesContext(s, t, c) ==> t == u
  }

  predicate Adopts(s: State, e: Event, c: nat)
    requires Enabled(s, e)
  {
    e.Adopt? && s.pcs[e.t].c == c
  }

  predicate Releases(s: State, e: Event, c: nat)
    requires Enabled(s, e)
  {
    e.StoreTid? && s.pcs[e.t].c == c
  }

  /** A thread comes to use a context only by taking its id. */
  lemma NewUser(s: State, e: Event, c: nat)
    requires Enabled(s, e) && !UsesContext(s, e.t, c) && UsesContext(Apply(s, e), e.t, c)
    ensures e.TryTid? && Apply(s, e).pcs[e.t] == RegAdopt(c)
  {
    if !IsRegistryEvent(e) { NoNewUser(s, e, c); }
  }

  lemma NoNewUser(s: State, e: Event, c: nat)
    requires Enabled(s, e) && !IsRegistryEvent(e) && UsesContext(Apply(s, e), e.t, c)
    ensures UsesContext(s, e.t, c)
  {
  }

  /** A step moves one thread. */
  lemma OthersStay(s: State, e: Event, t: nat)
    requires Enabled(s, e) && t != e.t
    ensures |Apply(s, e).pcs| == |s.pcs| && |Apply(s, e).tls| == |s.tls|
    ensures AtPc(s, t) ==> Apply(s, e).pcs[t] == s.pcs[t] && Apply(s, e).tls[t] == s.tls[t]
  {
  }

  lemma OrphanedStays(s: State, e: Event, c: nat)
    requires Inv(s) && Enabled(s, e) && Orphaned(s, c) && !Adopts(s, e, c)
    ensures Orphaned(Apply(s, e), c) && !UsesContext(s, e.t, c)
  {
    assert !UsesContext(s, e.t, c);
    var s' := Apply(s, e);
    forall t: nat | UsesContext(s', t, c) ensures s'.pcs[t] == RegAdopt(c) {
      if t == e.t {
        NewUser(s, e, c);
      } else {
        OthersStay(s, e, t);
        assert UsesContext(s, t, c);
      }
    }
  }

  lemma ReleaseOrphans(s: State, e: Event, c: nat)
    requires Inv(s) && Enabled(s, e) && Releases(s, e, c)
    ensures Orphaned(Apply(s, e), c) && HasContext(s, c) && UsesContext(s, e.t, c)
    ensures ContextKept(s, Apply(s, e), c)
  {
    assert PcOk(s, e.t) && TlsOk(s, e.t);
    var s' := Apply(s, e);
    forall t: nat ensures !UsesContext(s', t, c) {
      if t != e.t && UsesContext(s', t, c) {
        OthersStay(s, e, t);
        SingleOwner(s, t, e.t, c);
      }
    }
    assert forall a :: a in s.arenas ==> ArenaOk(s, a);
    assert forall a :: a in s.arenas ==> ArenaKept(s, s', a);
  }

  lemma {:induction false} OrphanedUntilAdopted(states: seq<State>, events: seq<Event>, j: nat, k: nat, c: nat)
    requires IsRun(states, events) && j < k < |states| && Releases(states[j], events[j], c)
    requires forall i :: j < i < k ==> !Adopts(states[i], events[i], c)
    ensures Orphaned(states[k], c)
    decreases k
  {
    RunInv(states, events, k - 1);
    if k == j + 1 {
      ReleaseOrphans(states[j], events[j], c);
    } else {
      OrphanedUntilAdopted(states, events, j, k - 1, c);
      OrphanedStays(states[k - 1], events[k - 1], c);
    }
  }

  /** Safe hand-over.  From the store that releases the id of context `c` to the next adoption of it,
      nobody uses the context, whatever other threads do; so the adopter finds the vectors, the
      active arenas and the whole local chain as the exiting thread left them, with only slots
      pushed onto the shared stacks in between, and is the one thread that uses them. */
  lemma HandOver(states: seq<State>, events: seq<Event>, j: nat, k: nat, c: nat)
    requires IsRun(states, events) && j < k < |events|
    requires Releases(states[j], events[j], c) && Adopts(states[k], events[k], c)
    requires forall i :: j < i < k ==> !Adopts(states[i], events[i], c)
    ensures UsesContext(states[j], events[j].t, c) && states[k + 1].tls[events[k].t] == Some(c)
    ensures ContextKept(states[j], states[k + 1], c)
    ensures IsOnlyUser(states[k + 1], events[k].t, c)
    ensures forall i :: j < i <= k ==> Orphaned(states[i], c)
  {
    RunInv(states, events, j);
    ReleaseOrphans(states[j], events[j], c);
    forall i | j < i <= k ensures Orphaned(states[i], c) {
      OrphanedUntilAdopted(states, events, j, i, c);
    }
    forall i | j < i < k ensures !UsesContext(states[i], events[i].t, c) {
      RunInv(states, events, i);
      OrphanedStays(states[i], events[i], c);
    }
    KeptWhileUnused(states, events, j + 1, k, c);
    KeptTrans(states[j], states[j + 1], states[k], c);
    RunInv(states, events, k);
    AdoptionKeeps(states[k], events[k], c);
    KeptTrans(states[j], states[k], states[k + 1], c);
    RunInv(states, events, k + 1);
    var last, u := states[k + 1], events[k].t;
    forall t: nat | UsesContext(last, t, c) ensures t == u { SingleOwner(last, t, u, c); }
  }

  /** In memory too: followed from the local top, the chain that is handed over passes the same slots. */
  lemma ChainKeptInMemory(s: State, s': State, c: nat, n: nat)
    requires Inv(s) && Inv(s') && ContextKept(s, s', c) && s'.size == s.size
    requires s.contexts[c].value.chain != [] && n <= |s.contexts[c].value.chain|
    ensures var ctx := s.contexts[c].value;
      && ctx.home in s.arenas && ctx.home in s'.arenas
      && Follow(s'.arenas[ctx.home].words, ctx.localTop, n) == Follow(s.arenas[ctx.home].words, ctx.localTop, n)
  {
    var ctx := s.contexts[c].value;
    LocalInMemory(s, c);
    LocalInMemory(s', c);
    ChainWalk(s.arenas[ctx.home].words, ctx.home, s.size, ctx.chain);
    ChainWalk(s'.arenas[ctx.home].words, ctx.home, s.size, ctx.chain);
  }

  lemma AdoptionKeeps(s: State, e: Event, c: nat)
    requires Inv(s) && Enabled(s, e) && Adopts(s, e, c) && HasContext(s, c)
    ensures ContextKept(s, Apply(s, e), c) && Apply(s, e).tls[e.t] == Some(c) && UsesContext(Apply(s, e), e.t, c)
  {
    assert PcOk(s, e.t);
    assert forall a :: a in s.arenas ==> ArenaOk(s, a);
    assert forall a :: a in s.arenas ==> ArenaKept(s, Apply(s, e), a);
  }

  /** No arena appears twice in the vectors of the contexts, and each is registered under its owner. */
  lemma TablesAgree(s: State, c: nat, k: nat, d: nat, l: nat)
    requires Inv(s) && HasContext(s, c) && HasContext(s, d)
    requires k < |s.contexts[c].value.owned| && l < |s.contexts[d].value.owned|
    ensures s.contexts[c].value.owned[k] in s.arenas && s.arenas[s.contexts[c].value.owned[k]].owner == c
    ensures s.contexts[c].value.owned[k] == s.contexts[d].value.owned[l] ==> c == d && k == l
  {
    OwnedArena(s, c, k);
    OwnedArena(s, d, l);
  }

  /** The next step of a thread inside a call. */
  function NextStep(s: State, t: nat): Event
    requires t < |s.pcs| && !s.pcs[t].Idle?
  {
    match s.pcs[t]
    case RegScan(_) => ScanTid(t)
    case RegTry(_) => TryTid(t)
    case RegAdopt(_) => Adopt(t)
    case ExitCheck(_) => CheckOnExit(t)
    case ExitDrop(_) => DropOnExit(t, Word(0, 0), seq(s.size, _ => 0))
    case ExitStore(_) => StoreTid(t)
    case AllocCheck(_) => Check(t)
    case AllocDrop(_) => Drop(t, Word(0, 0), seq(s.size, _ => 0))
    case AllocPop(_) => Pop(t)
    case AllocScan(_, _) => Scan(t)
    case AllocSteal(_, _) => Steal(t)
    case AllocGrow(_) => Grow(t)
    case AllocSetup(_, _) => Setup(t)
    case AllocLast(_) => Pop(t)
    case Got(_) => Deliver(t)
    case PushLoad(_) => LoadTop(t)
    case PushLink(_, _) => StoreLink(t)
    case PushTry(_, _) => TryPush(t, false)
  }

  lemma PopNeverStuck(s: State, c: nat)
    requires Inv(s) && HasContext(s, c)
    ensures CanPop(s, c)
  {
    assert ContextOk(s, c, s.contexts[c].value);
    if s.contexts[c].value.chain != [] { TopOfChain(s, c); }
  }

  lemma AllocNeverStuck(s: State, t: nat)
    requires Inv(s) && t < |s.pcs| && IsAlloc(s.pcs[t])
    ensures Enabled(s, NextStep(s, t))
  {
    assert PcOk(s, t) && TlsOk(s, t);
    var c := s.pcs[t].c;
    assert ContextOk(s, c, s.contexts[c].value);
    match s.pcs[t]
    case AllocPop(_) => PopNeverStuck(s, c);
    case AllocLast(_) => PopNeverStuck(s, c);
    case AllocScan(_, k) => if k < s.contexts[c].value.active { OwnedArena(s, c, k); }
    case AllocGrow(_) =>
      if s.contexts[c].value.active < |s.contexts[c].value.owned| { OwnedArena(s, c, s.contexts[c].value.active); }
    case _ =>
  }

  /** No call ever dereferences a missing arena or slot: its next step is always possible. */
  lemma NeverStuck(s: State, t: nat)
    requires Inv(s) && t < |s.pcs| && !s.pcs[t].Idle?
    ensures Enabled(s, NextStep(s, t))
  {
    if IsAlloc(s.pcs[t]) {
      AllocNeverStuck(s, t);
    } else {
      assert PcOk(s, t) && TlsOk(s, t);
      if s.pcs[t].ExitCheck? && s.contexts[s.pcs[t].c].value.active > 0 { HasLastOk(s, s.pcs[t].c); }
    }
  }

  // Registration.

  /** The state after thread `t` has taken up to `n` steps of its call with nobody else moving. */
  function Alone(s: State, t: nat, n: nat): State
    requires t < |s.pcs|
    decreases n
  {
    if n == 0 || s.pcs[t].Idle? || !Enabled(s, NextStep(s, t)) || t >= |Apply(s, NextStep(s, t)).pcs| then s
    else Alone(Apply(s, NextStep(s, t)), t, n - 1)
  }

  lemma {:induction false} ScansToFree(s: State, t: nat, k: nat, i: nat)
    requires !s.failed && SizeOk(s) && AtPc(s, t) && s.pcs[t] == RegScan(k) && k <= i < |s.used| && !s.used[i]
    requires forall d :: k <= d < i ==> s.used[d]
    ensures Alone(s, t, i - k + 3) == Alone(Goto(s, t, RegScan(i)), t, 3)
    decreases i - k
  {
    if k == i {
      assert Goto(s, t, RegScan(i)) == s;
    } else {
      var s1 := Apply(s, ScanTid(t));
      ScansToFree(s1, t, k + 1, i);
      assert Goto(s1, t, RegScan(i)) == Goto(s, t, RegScan(i));
    }
  }

  lemma TakesFreeId(s: State, t: nat, i: nat)
    requires Inv(s) && AtPc(s, t) && s.pcs[t] == RegScan(i) && i < |s.used| && !s.used[i]
    ensures var s1 := Apply(s, ScanTid(t));
      && Enabled(s1, TryTid(t)) && Enabled(Apply(s1, TryTid(t)), Adopt(t))
      && var r := Apply(Apply(s1, TryTid(t)), Adopt(t)); Alone(s, t, 3) == r && Inv(r)
  {
    var s1 := Apply(s, ScanTid(t));
    StepKeeps(s, ScanTid(t));
    var s2 := Apply(s1, TryTid(t));
    StepKeeps(s1, TryTid(t));
    var s3 := Apply(s2, Adopt(t));
    StepKeeps(s2, Adopt(t));
    assert Alone(s3, t, 0) == s3 && Alone(s2, t, 1) == s3;
    assert Alone(s1, t, 2) == s3;
  }

  /** Registered under id `i`: with the context that was left there, or a new empty one. */
  predicate IsRegistered(s: State, r: State, t: nat, i: nat) {
    && AtPc(r, t) && r.pcs[t].Idle? && r.tls[t] == Some(i) && i < |r.used| && r.used[i]
    && r.arenas == s.arenas && i < |s.contexts|
    && r.contexts == s.contexts[i := if s.contexts[i].None? then Some(NewContext()) else s.contexts[i]]
  }

  lemma ThreeSteps(s: State, t: nat, i: nat)
    requires !s.failed && SizeOk(s) && AtPc(s, t) && s.pcs[t] == RegScan(i) && InRegistry(s, i) && !s.used[i]
    ensures var s1 := Apply(s, ScanTid(t));
      && Enabled(s1, TryTid(t)) && Enabled(Apply(s1, TryTid(t)), Adopt(t))
      && IsRegistered(s, Apply(Apply(s1, TryTid(t)), Adopt(t)), t, i)
  {
  }

  /** A thread that registers undisturbed takes the lowest free id; it gets the context that was left
      under that id as it is, or a new empty one, and every other context stays as it is. */
  lemma RegistersUnderLowestFreeId(s: State, t: nat, i: nat)
    requires Inv(s) && t < |s.pcs| && s.pcs[t] == RegScan(0) && i < |s.used| && !s.used[i]
    requires forall d :: 0 <= d < i ==> s.used[d]
    ensures Inv(Alone(s, t, i + 3)) && IsRegistered(s, Alone(s, t, i + 3), t, i)
  {
    assert PcOk(s, t) && TlsOk(s, t);
    ScansToFree(s, t, 0, i);
    MoveKeeps(s, t, RegScan(i));
    TakesFreeId(Goto(s, t, RegScan(i)), t, i);
    ThreeSteps(Goto(s, t, RegScan(i)), t, i);
  }
}
