/**
 Each step of the allocator and of the registry keeps the invariant.
 */
module AllocatorSteps {
  import opened Words
  import opened Handles
  import opened Allocator
  import opened AllocatorInvariant

  lemma InitKeeps(size: nat, maxThreads: nat, threads: nat)
    requires 2 <= size < SLOT_SPAN
    ensures Inv(Init(size, maxThreads, threads))
  {
  }

  /** A step that leaves every arena alone, by a thread that has no slot in flight. */
  lemma QuietKeeps(s: State, s': State, t: nat, c: nat)
    requires Inv(s) && AtPc(s, t) && !HoldsSlot(s.pcs[t])
    requires s'.size == s.size && s'.arenas == s.arenas && s'.takers == s.takers && Shape(s')
    requires RegistryKeeps(s, s', t, MAX_ARENAS, c) && ThreadsKeep(s, s', t, MAX_ARENAS)
    requires HasContext(s', c) ==> ContextOk(s', c, s'.contexts[c].value)
    requires AtPc(s', t) && PcOk(s', t) && TlsOk(s', t)
    ensures Inv(s')
  {
    assert MAX_ARENAS in s.arenas ==> ArenaOk(s, MAX_ARENAS);
    LocalKeeps(s, s', t, MAX_ARENAS, c);
  }

  predicate HoldsSlot(pc: Pc) {
    pc.Got? || IsPush(pc)
  }

  /** A step that only moves thread `t` to another point of its call. */
  lemma MoveKeeps(s: State, t: nat, pc: Pc)
    requires Inv(s) && AtPc(s, t) && !HoldsSlot(s.pcs[t])
    requires PcOk(Goto(s, t, pc), t) && TlsOk(Goto(s, t, pc), t)
    ensures Inv(Goto(s, t, pc))
  {
    QuietKeeps(s, Goto(s, t, pc), t, |s.contexts|);
  }

  lemma TryTidKeeps(s: State, t: nat)
    requires Inv(s) && AtPc(s, t) && s.pcs[t].RegTry? && InRegistry(s, s.pcs[t].i)
    ensures Inv(DoTryTid(s, t))
  {
    var s' := DoTryTid(s, t);
    var i := s.pcs[t].i;
    assert PcOk(s, t) && TlsOk(s, t);
    if HasContext(s, i) { ContextSame(s, s', i); }
    if !s.used[i] { QuietKeeps(s, s', t, i); } else { MoveKeeps(s, t, RegScan(i + 1)); }
  }

  /** Changing an arena without changing its owner or position keeps the vectors of a context in order. */
  lemma OwnedFrame(s: State, s': State, c: nat, ctx: Context, ctx': Context, a: nat)
    requires forall k {:trigger OwnedOk(s, c, ctx, k)} :: 0 <= k < |ctx.owned| ==> OwnedOk(s, c, ctx, k)
    requires ctx'.owned == ctx.owned && a in s.arenas && a in s'.arenas && s'.arenas == s.arenas[a := s'.arenas[a]]
    requires s'.arenas[a].owner == s.arenas[a].owner && s'.arenas[a].pos == s.arenas[a].pos
    ensures forall k {:trigger OwnedOk(s', c, ctx', k)} :: 0 <= k < |ctx'.owned| ==> OwnedOk(s', c, ctx', k)
  {
    forall k | 0 <= k < |ctx'.owned| ensures OwnedOk(s', c, ctx', k) { assert OwnedOk(s, c, ctx, k); }
  }

  lemma ContextSame(s: State, s': State, c: nat)
    requires HasContext(s, c) && ContextOk(s, c, s.contexts[c].value)
    requires s'.size == s.size && s'.arenas == s.arenas
    ensures ContextOk(s', c, s.contexts[c].value)
  {
    var ctx := s.contexts[c].value;
    forall k | 0 <= k < |ctx.owned| ensures OwnedOk(s', c, ctx, k) { assert OwnedOk(s, c, ctx, k); }
  }

  lemma AdoptKeeps(s: State, t: nat)
    requires Inv(s) && AtPc(s, t) && s.pcs[t].RegAdopt? && InRegistry(s, s.pcs[t].c)
    ensures Inv(DoAdopt(s, t))
  {
    var c := s.pcs[t].c;
    assert PcOk(s, t) && TlsOk(s, t);
    if HasContext(s, c) { ContextSame(s, DoAdopt(s, t), c); }
    QuietKeeps(s, DoAdopt(s, t), t, c);
  }

  lemma ExitKeeps(s: State, t: nat)
    requires Inv(s) && IsIdle(s, t) && s.tls[t].Some?
    ensures Inv(DoExit(s, t))
  {
    assert TlsOk(s, t);
    QuietKeeps(s, DoExit(s, t), t, |s.contexts|);
  }

  lemma StoreTidKeeps(s: State, t: nat)
    requires Inv(s) && AtPc(s, t) && s.pcs[t].ExitStore? && InRegistry(s, s.pcs[t].c)
    ensures Inv(DoStoreTid(s, t))
  {
    var c := s.pcs[t].c;
    assert PcOk(s, t) && TlsOk(s, t);
    if HasContext(s, c) { ContextSame(s, DoStoreTid(s, t), c); }
    QuietKeeps(s, DoStoreTid(s, t), t, c);
  }

  /** The depth that the owner reads in the top word of its last arena is the length of the stack. */
  lemma DepthIsLength(s: State, c: nat)
    requires Inv(s) && HasLast(s, c)
    ensures Last(s, c) in s.arenas && s.arenas[Last(s, c)].top.hi == |s.arenas[Last(s, c)].stack|
  {
    var ctx := s.contexts[c].value;
    assert ContextOk(s, c, ctx);
    assert OwnedOk(s, c, ctx, ctx.active - 1);
    assert ArenaOk(s, Last(s, c));
    StackBound(s.arenas[Last(s, c)], s.size);
  }

  lemma HasLastOk(s: State, c: nat)
    requires Inv(s) && HasContext(s, c) && s.contexts[c].value.active > 0
    ensures HasLast(s, c)
  {
    var ctx := s.contexts[c].value;
    assert ContextOk(s, c, ctx);
    assert OwnedOk(s, c, ctx, ctx.active - 1);
    assert ArenaOk(s, ctx.owned[ctx.active - 1]);
  }

  lemma CheckKeeps(s: State, t: nat)
    requires Inv(s) && AtPc(s, t) && s.pcs[t].AllocCheck? && HasLast(s, s.pcs[t].c)
    ensures Inv(DoCheck(s, t))
  {
    assert PcOk(s, t) && TlsOk(s, t);
    DepthIsLength(s, s.pcs[t].c);
    MoveKeeps(s, t, DoCheck(s, t).pcs[t]);
  }

  lemma CheckOnExitKeeps(s: State, t: nat)
    requires Inv(s) && AtPc(s, t) && s.pcs[t].ExitCheck? && CanCheckOnExit(s, s.pcs[t].c)
    ensures Inv(DoCheckOnExit(s, t))
  {
    assert PcOk(s, t) && TlsOk(s, t);
    if s.contexts[s.pcs[t].c].value.active > 0 { DepthIsLength(s, s.pcs[t].c); }
    MoveKeeps(s, t, DoCheckOnExit(s, t).pcs[t]);
  }

  lemma AllocBeginKeeps(s: State, t: nat)
    requires Inv(s) && IsIdle(s, t) && s.tls[t].Some? && HasContext(s, s.tls[t].value)
    ensures Inv(DoAllocBegin(s, t))
  {
    var s' := DoAllocBegin(s, t);
    var c := s.tls[t].value;
    var ctx, ctx' := s.contexts[c].value, s'.contexts[c].value;
    assert TlsOk(s, t);
    assert ContextOk(s, c, ctx);
    forall k | 0 <= k < |ctx.owned| ensures OwnedOk(s', c, ctx', k) { assert OwnedOk(s, c, ctx, k); }
    if ctx.active > 0 { HasLastOk(s, c); }
    QuietKeeps(s, s', t, c);
  }

  lemma PopEmptyKeeps(s: State, t: nat)
    requires Inv(s) && AtPc(s, t) && (s.pcs[t].AllocPop? || s.pcs[t].AllocLast?) && CanPop(s, s.pcs[t].c)
    requires LocalEmpty(s.contexts[s.pcs[t].c].value)
    ensures Inv(DoPop(s, t))
  {
    var s' := DoPop(s, t);
    var c := s.pcs[t].c;
    var ctx, ctx' := s.contexts[c].value, s'.contexts[c].value;
    assert PcOk(s, t) && TlsOk(s, t);
    assert ContextOk(s, c, ctx);
    if ctx.chain != [] {
      TopOfChain(s, c);
      assert false;
    }
    forall k | 0 <= k < |ctx.owned| ensures OwnedOk(s', c, ctx', k) { assert OwnedOk(s, c, ctx, k); }
    QuietKeeps(s, s', t, c);
  }

  /** A local chain that is not empty starts at a usable slot of one active arena of the context. */
  lemma TopOfChain(s: State, c: nat)
    requires Inv(s) && HasContext(s, c) && s.contexts[c].value.chain != []
    ensures var ctx := s.contexts[c].value; var j := ctx.chain[|ctx.chain| - 1];
      && InChain(s.size, ctx.chain) && ctx.home in s.arenas && ctx.home < MAX_ARENAS && 0 < j < s.size
      && ctx.localTop == HandleOf(ctx.home, j) && IsHandle(ctx.localTop, ctx.home, j) && !LocalEmpty(ctx)
      && HandleOk(s, ctx.localTop) && LocAt(s, ctx.localTop) == OnLocal(|ctx.chain| - 1)
      && WordAt(s, ctx.localTop) == Below(ctx.home, ctx.chain, |ctx.chain| - 1)
  {
    var ctx := s.contexts[c].value;
    assert ContextOk(s, c, ctx);
    assert ArenaOk(s, ctx.home);
    var j := ctx.chain[|ctx.chain| - 1];
    HandleRoundTrip(ctx.home, j);
    assert SlotOk(s, ctx.home, s.arenas[ctx.home], ctx, j);
  }

  /** A step of the owner of context `c` on that context and one arena, perhaps a new one. */
  predicate IsOwnerStep(s: State, s': State, t: nat, a: nat, c: nat) {
    && AtPc(s, t) && HasContext(s, c) && HasContext(s', c) && |s'.pcs| == |s.pcs| && a in s'.arenas
    && s' == s.(arenas := s.arenas[a := s'.arenas[a]],
                contexts := s.contexts[c := s'.contexts[c]],
                pcs := s.pcs[t := s'.pcs[t]])
  }

  lemma OwnerKeeps(s: State, s': State, t: nat, a: nat, c: nat)
    requires Inv(s) && IsOwnerStep(s, s', t, a, c) && IsOwner(s, t, c) && !HoldsSlot(s.pcs[t])
    requires if a in s.arenas then ArenaMoves(s.arenas[a], s'.arenas[a], t, c) else a < |s.takers| && s.takers[a] == t
    requires ContextMoves(s.size, s.contexts[c].value, s'.contexts[c].value, a)
    requires ArenaOk(s', a) && ContextOk(s', c, s'.contexts[c].value) && PcOk(s', t) && TlsOk(s', t)
    ensures Inv(s')
  {
    LocalKeeps(s, s', t, a, c);
  }

  // Pop.

  predicate Popping(s: State, t: nat) {
    && AtPc(s, t) && (s.pcs[t].AllocPop? || s.pcs[t].AllocLast?) && HasContext(s, s.pcs[t].c)
    && s.contexts[s.pcs[t].c].value.chain != [] && CanPop(s, s.pcs[t].c) && !LocalEmpty(s.contexts[s.pcs[t].c].value)
  }

  /** Popping the top of the local chain, seen from slot `j` of its arena. */
  lemma PopSlot(s: State, s': State, t: nat, a: nat, arena: Arena, ctx: Context, ctx': Context, j: nat)
    requires s'.size == s.size < SLOT_SPAN && AtPc(s, t) && a < MAX_ARENAS && ctx.home == a
    requires |arena.locs| == |arena.words| == s.size && j < s.size
    requires InChain(s.size, arena.stack) && InChain(s.size, ctx.chain) && ctx.chain != []
    requires SlotOk(s, a, arena, ctx, j)
    requires var top := ctx.chain[|ctx.chain| - 1];
      && arena.locs[top] == OnLocal(|ctx.chain| - 1)
      && s'.pcs == s.pcs[t := Got(HandleOf(a, top))] && (s.pcs[t].AllocPop? || s.pcs[t].AllocLast?)
    requires ctx'.home == a && ctx'.chain == ctx.chain[..|ctx.chain| - 1]
    ensures var top := ctx.chain[|ctx.chain| - 1];
      SlotOk(s', a, PutSlot(arena, top, InHand(t), HandleOf(a, top)), ctx', j)
  {
    HandleRoundTrip(a, ctx.chain[|ctx.chain| - 1]);
  }

  lemma PopArena(s: State, t: nat, c: nat, ctx: Context)
    requires Popping(s, t) && SizeOk(s) && c == s.pcs[t].c && ctx == s.contexts[c].value
    requires ctx.home in s.arenas && ArenaOk(s, ctx.home) && ContextOk(s, c, ctx)
    requires var j := ctx.chain[|ctx.chain| - 1];
      ctx.localTop == HandleOf(ctx.home, j) && IsHandle(ctx.localTop, ctx.home, j)
    ensures var s' := DoPop(s, t);
      ctx.home in s'.arenas && ArenaOk(s', ctx.home) && ArenaMoves(s.arenas[ctx.home], s'.arenas[ctx.home], t, c)
  {
    var s' := DoPop(s, t);
    var a, ctx' := ctx.home, s'.contexts[c].value;
    var arena := s.arenas[a];
    forall j | 0 <= j < s.size ensures SlotOk(s', a, s'.arenas[a], ctx', j) {
      assert SlotOk(s, a, arena, ctx, j);
      PopSlot(s, s', t, a, arena, ctx, ctx', j);
    }
  }

  /** Popping the top of the local chain, seen from its context. */
  lemma PopContext(s: State, s': State, t: nat, c: nat, ctx: Context, ctx': Context)
    requires ContextOk(s, c, ctx) && ctx.chain != [] && s'.size == s.size < SLOT_SPAN
    requires var top := ctx.chain[|ctx.chain| - 1];
      && |s.arenas[ctx.home].locs| == |s.arenas[ctx.home].words| == s.size
      && ctx.home in s'.arenas && s'.arenas == s.arenas[ctx.home := s'.arenas[ctx.home]]
      && s'.arenas[ctx.home].owner == c && s'.arenas[ctx.home].pos == s.arenas[ctx.home].pos
      && s'.arenas[ctx.home].locs == s.arenas[ctx.home].locs[top := InHand(t)]
    requires ctx' == ctx.(localTop := Below(ctx.home, ctx.chain, |ctx.chain| - 1),
                          chain := ctx.chain[..|ctx.chain| - 1])
    ensures ContextOk(s', c, ctx')
  {
    OwnedFrame(s, s', c, ctx, ctx', ctx.home);
    HandleRoundTrip(ctx.home, 0);
    var locs, locs', n := s.arenas[ctx.home].locs, s'.arenas[ctx.home].locs, |ctx.chain| - 1;
    forall p | 0 <= p < n ensures ctx'.chain[p] < |locs'| && locs'[ctx'.chain[p]] == OnLocal(p) {
      assert locs[ctx.chain[p]] == OnLocal(p) && locs[ctx.chain[n]] == OnLocal(n);
    }
  }

  lemma PopKeeps(s: State, t: nat)
    requires Inv(s) && Popping(s, t)
    ensures Inv(DoPop(s, t))
  {
    var s' := DoPop(s, t);
    var c := s.pcs[t].c;
    assert PcOk(s, t) && TlsOk(s, t);
    TopOfChain(s, c);
    var ctx := s.contexts[c].value;
    assert ArenaOk(s, ctx.home) && ContextOk(s, c, ctx);
    PopArena(s, t, c, ctx);
    assert s'.arenas[ctx.home].locs == s.arenas[ctx.home].locs[ctx.chain[|ctx.chain| - 1] := InHand(t)];
    PopContext(s, s', t, c, ctx, s'.contexts[c].value);
    OwnerKeeps(s, s', t, ctx.home, c);
  }

  // Scan and steal.

  lemma OwnedArena(s: State, c: nat, k: nat)
    requires Inv(s) && HasContext(s, c) && k < |s.contexts[c].value.owned|
    ensures HasOwned(s, c, k) && OwnedOk(s, c, s.contexts[c].value, k)
    ensures ArenaOk(s, s.contexts[c].value.owned[k])
  {
    assert ContextOk(s, c, s.contexts[c].value);
    assert OwnedOk(s, c, s.contexts[c].value, k);
    assert ArenaOk(s, s.contexts[c].value.owned[k]);
  }

  /** The top of an active arena is the sentinel exactly when its stack is empty. */
  lemma SentinelMeansEmpty(s: State, c: nat, k: nat)
    requires Inv(s) && HasContext(s, c) && k < s.contexts[c].value.active
    ensures HasOwned(s, c, k)
    ensures var a := s.contexts[c].value.owned[k]; s.arenas[a].top.lo == Sentinel(a) <==> s.arenas[a].stack == []
  {
    assert ContextOk(s, c, s.contexts[c].value);
    OwnedArena(s, c, k);
  }

  lemma ScanKeeps(s: State, t: nat)
    requires Inv(s) && AtPc(s, t) && s.pcs[t].AllocScan? && CanScan(s, s.pcs[t].c, s.pcs[t].k)
    ensures Inv(DoScan(s, t))
  {
    assert PcOk(s, t) && TlsOk(s, t);
    if s.pcs[t].k < s.contexts[s.pcs[t].c].value.active { SentinelMeansEmpty(s, s.pcs[t].c, s.pcs[t].k); }
    MoveKeeps(s, t, DoScan(s, t).pcs[t]);
  }

  predicate Stealing(s: State, t: nat) {
    AtPc(s, t) && s.pcs[t].AllocSteal? && HasOwned(s, s.pcs[t].c, s.pcs[t].k)
  }

  lemma StealArena(s: State, t: nat)
    requires Inv(s) && Stealing(s, t)
    ensures var a := s.contexts[s.pcs[t].c].value.owned[s.pcs[t].k]; var s' := DoSteal(s, t);
      a in s'.arenas && ArenaOk(s', a) && ArenaMoves(s.arenas[a], s'.arenas[a], t, s.pcs[t].c) && !s'.failed
  {
    var AllocSteal(c, k) := s.pcs[t];
    var s' := DoSteal(s, t);
    assert PcOk(s, t);
    SentinelMeansEmpty(s, c, k);
    OwnedArena(s, c, k);
    var ctx, ctx' := s.contexts[c].value, s'.contexts[c].value;
    var a := ctx.owned[k];
    var arena, arena' := s.arenas[a], s'.arenas[a];
    forall j | 0 <= j < s.size ensures SlotOk(s', a, arena', ctx', j) {
      assert SlotOk(s, a, arena, ctx, j);
    }
  }

  lemma StealContext(s: State, t: nat)
    requires Inv(s) && Stealing(s, t)
    ensures var c := s.pcs[t].c; var s' := DoSteal(s, t); HasContext(s', c) && ContextOk(s', c, s'.contexts[c].value)
  {
    var AllocSteal(c, k) := s.pcs[t];
    var s' := DoSteal(s, t);
    assert PcOk(s, t);
    SentinelMeansEmpty(s, c, k);
    OwnedArena(s, c, k);
    var ctx, ctx' := s.contexts[c].value, s'.contexts[c].value;
    assert ContextOk(s, c, ctx);
    OwnedFrame(s, s', c, ctx, ctx', ctx.owned[k]);
  }

  /** The thread itself, after taking the stack of arena `a`. */
  lemma StealThread(s: State, t: nat, c: nat, a: nat)
    requires Stealing(s, t) && c == s.pcs[t].c && a == s.contexts[c].value.owned[s.pcs[t].k]
    requires PcOk(s, t) && TlsOk(s, t) && ArenaOk(s, a) && s.arenas[a].top.lo != Sentinel(a)
    ensures var s' := DoSteal(s, t);
      && IsOwnerStep(s, s', t, a, c) && IsOwner(s, t, c) && PcOk(s', t) && TlsOk(s', t)
      && ContextMoves(s.size, s.contexts[c].value, s'.contexts[c].value, a)
  {
  }

  lemma StealKeeps(s: State, t: nat)
    requires Inv(s) && Stealing(s, t)
    ensures Inv(DoSteal(s, t))
  {
    assert PcOk(s, t) && TlsOk(s, t);
    var c, k := s.pcs[t].c, s.pcs[t].k;
    var a := s.contexts[c].value.owned[k];
    StealArena(s, t);
    StealContext(s, t);
    SentinelMeansEmpty(s, c, k);
    OwnedArena(s, c, k);
    StealThread(s, t, c, a);
    OwnerKeeps(s, DoSteal(s, t), t, a, c);
  }

  // Giving an arena back.

  predicate Dropping(s: State, t: nat, pc: Pc) {
    && AtPc(s, t)
    && ((s.pcs[t].AllocDrop? && pc == AllocPop(s.pcs[t].c)) || (s.pcs[t].ExitDrop? && pc == ExitCheck(s.pcs[t].c)))
    && LastIsFull(s, s.pcs[t].c)
  }

  /** At full depth every usable slot of the arena is on its shared stack: none is allocated,
      in a local chain, popped or being pushed. */
  lemma FullMeansAllReturned(s: State, c: nat)
    requires Inv(s) && LastIsFull(s, c)
    ensures ArenaOk(s, Last(s, c)) && s.arenas[Last(s, c)].locs[0].Absent?
    ensures forall j: nat :: 0 < j < s.size ==> s.arenas[Last(s, c)].locs[j].OnStack?
  {
    OwnedArena(s, c, s.contexts[c].value.active - 1);
    assert SlotOk(s, Last(s, c), s.arenas[Last(s, c)], s.contexts[c].value, 0);
    StackBound(s.arenas[Last(s, c)], s.size);
  }

  lemma DropContext(s: State, t: nat, top: Word, words: seq<U32>, pc: Pc)
    requires Inv(s) && Dropping(s, t, pc) && |words| == s.size
    ensures var c := s.pcs[t].c; var s' := DoDrop(s, t, c, top, words, pc);
      && HasContext(s', c) && ContextOk(s', c, s'.contexts[c].value)
      && ContextMoves(s.size, s.contexts[c].value, s'.contexts[c].value, Last(s, c))
  {
    var c := s.pcs[t].c;
    var s' := DoDrop(s, t, c, top, words, pc);
    var ctx, ctx' := s.contexts[c].value, s'.contexts[c].value;
    FullMeansAllReturned(s, c);
    assert ContextOk(s, c, ctx);
    OwnedFrame(s, s', c, ctx, ctx', Last(s, c));
    forall i | 0 <= i < |ctx.owned| ensures ctx.owned[i] == Last(s, c) ==> i == ctx.active - 1 {
      assert OwnedOk(s, c, ctx, i) && OwnedOk(s, c, ctx, ctx.active - 1);
    }
    if ctx.chain != [] {
      assert ArenaOk(s, ctx.home);
      assert s.arenas[ctx.home].locs[ctx.chain[0]] == OnLocal(0);
      assert ctx.home != Last(s, c);
    }
  }

  lemma DropArena(s: State, t: nat, top: Word, words: seq<U32>, pc: Pc)
    requires Inv(s) && Dropping(s, t, pc) && |words| == s.size
    ensures var c := s.pcs[t].c; var s' := DoDrop(s, t, c, top, words, pc);
      && Last(s, c) in s'.arenas && ArenaOk(s', Last(s, c))
      && ArenaMoves(s.arenas[Last(s, c)], s'.arenas[Last(s, c)], t, c)
  {
    var c := s.pcs[t].c;
    FullMeansAllReturned(s, c);
    assert OwnedOk(s, c, s.contexts[c].value, s.contexts[c].value.active - 1) by {
      assert ContextOk(s, c, s.contexts[c].value);
    }
  }

  lemma DropKeeps(s: State, t: nat, top: Word, words: seq<U32>, pc: Pc)
    requires Inv(s) && Dropping(s, t, pc) && |words| == s.size
    ensures Inv(DoDrop(s, t, s.pcs[t].c, top, words, pc))
  {
    var c := s.pcs[t].c;
    assert PcOk(s, t) && TlsOk(s, t);
    DropContext(s, t, top, words, pc);
    DropArena(s, t, top, words, pc);
    var s' := DoDrop(s, t, c, top, words, pc);
    OwnerKeeps(s, s', t, Last(s, c), c);
  }

  // Setting up an arena.

  lemma FreshArenaOk(s: State, a: nat, c: nat)
    requires SizeOk(s) && a in s.arenas && a < MAX_ARENAS && a < |s.takers| && HasContext(s, c)
    requires var ctx := s.contexts[c].value;
      && 0 < ctx.active <= |ctx.owned| && ctx.owned[ctx.active - 1] == a
      && s.arenas[a] == FreshArena(a, s.size, c, ctx.active - 1)
      && ctx.chain == FreshChain(s.size) && ctx.home == a
    ensures ArenaOk(s, a)
  {
    var ctx := s.contexts[c].value;
    assert Wrap(0) == 0;
    forall j | 0 <= j < s.size ensures SlotOk(s, a, s.arenas[a], ctx, j) {
    }
  }

  lemma FreshContextOk(s: State, a: nat, c: nat)
    requires SizeOk(s) && a in s.arenas && a < MAX_ARENAS && HasContext(s, c)
    requires var ctx := s.contexts[c].value;
      && 0 < ctx.active <= |ctx.owned|
      && s.arenas[a] == FreshArena(a, s.size, c, ctx.active - 1)
      && ctx.chain == FreshChain(s.size) && ctx.home == a && ctx.localTop == HandleOf(a, s.size - 1)
      && forall k {:trigger OwnedOk(s, c, ctx, k)} :: 0 <= k < |ctx.owned| ==> OwnedOk(s, c, ctx, k)
    ensures ContextOk(s, c, s.contexts[c].value)
  {
    var chain, locs := FreshChain(s.size), FreshLocs(s.size);
    forall p | 0 <= p < |chain| ensures 0 < chain[p] < s.size && locs[chain[p]] == OnLocal(p) {
      assert chain[p] == p + 1 && locs[p + 1] == OnLocal(p);
    }
  }

  lemma ReuseContext(s: State, t: nat, c: nat, ctx: Context, a: nat)
    requires AtPc(s, t) && s.pcs[t] == AllocGrow(c) && CanGrow(s, c) && SizeOk(s) && ctx == s.contexts[c].value
    requires ctx.active < |ctx.owned| && a == ctx.owned[ctx.active] && a in s.arenas && ArenaOk(s, a)
    requires OwnedOk(s, c, ctx, ctx.active)
    requires PcOk(s, t) && ContextOk(s, c, ctx)
    ensures var s' := DoGrow(s, t);
      && HasContext(s', c) && ContextOk(s', c, s'.contexts[c].value) && a in s'.arenas && ArenaOk(s', a)
      && ContextMoves(s.size, ctx, s'.contexts[c].value, a)
  {
    var s' := DoGrow(s, t);
    OwnedFrame(s, s', c, ctx, s'.contexts[c].value, a);
    forall k | 0 <= k < |ctx.owned| ensures ctx.owned[k] == a ==> k == ctx.active {
      assert OwnedOk(s, c, ctx, k);
    }
    FreshArenaOk(s', a, c);
    FreshContextOk(s', a, c);
  }

  /** Setting up again an arena that had been given back. */
  lemma ReuseKeeps(s: State, t: nat)
    requires Inv(s) && AtPc(s, t) && s.pcs[t].AllocGrow? && CanGrow(s, s.pcs[t].c)
    requires s.contexts[s.pcs[t].c].value.active < |s.contexts[s.pcs[t].c].value.owned|
    ensures Inv(DoGrow(s, t))
  {
    var c := s.pcs[t].c;
    var s' := DoGrow(s, t);
    var a := s.contexts[c].value.owned[s.contexts[c].value.active];
    assert PcOk(s, t) && TlsOk(s, t);
    OwnedArena(s, c, s.contexts[c].value.active);
    assert ContextOk(s, c, s.contexts[c].value);
    ReuseContext(s, t, c, s.contexts[c].value, a);
    OwnerKeeps(s, s', t, a, c);
  }

  lemma DrawKeeps(s: State, t: nat)
    requires Inv(s) && AtPc(s, t) && s.pcs[t].AllocGrow? && CanGrow(s, s.pcs[t].c)
    requires s.contexts[s.pcs[t].c].value.active >= |s.contexts[s.pcs[t].c].value.owned|
    ensures Inv(DoGrow(s, t))
  {
    var c := s.pcs[t].c;
    var s' := DoGrow(s, t);
    assert PcOk(s, t) && TlsOk(s, t);
    assert ContextOk(s, c, s.contexts[c].value);
    assert |s.takers| in s.arenas ==> ArenaOk(s, |s.takers|);
    assert MAX_ARENAS in s.arenas ==> ArenaOk(s, MAX_ARENAS);
    LocalKeeps(s, s', t, MAX_ARENAS, |s.contexts|);
  }

  lemma SetupOwned(s: State, s': State, c: nat, ctx: Context, ctx': Context, a: nat)
    requires forall k {:trigger OwnedOk(s, c, ctx, k)} :: 0 <= k < |ctx.owned| ==> OwnedOk(s, c, ctx, k)
    requires ctx'.owned == ctx.owned + [a] && a !in s.arenas && a in s'.arenas
    requires s'.arenas == s.arenas[a := s'.arenas[a]]
    requires s'.arenas[a].owner == c && s'.arenas[a].pos == |ctx.owned|
    ensures forall k {:trigger OwnedOk(s', c, ctx', k)} :: 0 <= k < |ctx'.owned| ==> OwnedOk(s', c, ctx', k)
  {
    forall k | 0 <= k < |ctx'.owned| ensures OwnedOk(s', c, ctx', k) {
      if k < |ctx.owned| { assert OwnedOk(s, c, ctx, k); }
    }
  }

  lemma SetupContext(s: State, t: nat, c: nat, a: nat)
    requires AtPc(s, t) && s.pcs[t] == AllocSetup(c, a) && HasContext(s, c) && a < MAX_ARENAS && SizeOk(s)
    requires PcOk(s, t) && ContextOk(s, c, s.contexts[c].value)
    ensures var s' := DoSetup(s, t);
      && HasContext(s', c) && ContextOk(s', c, s'.contexts[c].value) && a in s'.arenas && ArenaOk(s', a)
      && ContextMoves(s.size, s.contexts[c].value, s'.contexts[c].value, a)
  {
    var s' := DoSetup(s, t);
    SetupOwned(s, s', c, s.contexts[c].value, s'.contexts[c].value, a);
    FreshArenaOk(s', a, c);
    FreshContextOk(s', a, c);
  }

  /** The thread itself, after setting up an arena. */
  lemma SetupThread(s: State, t: nat, c: nat, a: nat)
    requires AtPc(s, t) && s.pcs[t] == AllocSetup(c, a) && HasContext(s, c) && a < MAX_ARENAS && SizeOk(s)
    requires PcOk(s, t) && TlsOk(s, t)
    ensures var s' := DoSetup(s, t);
      && IsOwnerStep(s, s', t, a, c) && IsOwner(s, t, c) && PcOk(s', t) && TlsOk(s', t)
      && a !in s.arenas && a < |s.takers| && s.takers[a] == t
  {
  }

  lemma SetupKeeps(s: State, t: nat)
    requires Inv(s) && AtPc(s, t) && s.pcs[t].AllocSetup? && HasContext(s, s.pcs[t].c) && s.pcs[t].a < MAX_ARENAS
    ensures Inv(DoSetup(s, t))
  {
    var AllocSetup(c, a) := s.pcs[t];
    assert PcOk(s, t) && TlsOk(s, t) && ContextOk(s, c, s.contexts[c].value);
    SetupContext(s, t, c, a);
    SetupThread(s, t, c, a);
    OwnerKeeps(s, DoSetup(s, t), t, a, c);
  }

  // Handing out and pushing back.

  /** A step of a thread that has a slot in flight changes only that slot, and perhaps the stack of its arena. */
  lemma SlotKeeps(s: State, s': State, t: nat, h: U32)
    requires Inv(s) && AtPc(s, t) && HandleOk(s, h) && (HoldsSlot(s.pcs[t]) ==> s.pcs[t].handle == h)
    requires s' == s.(arenas := s'.arenas, pcs := s'.pcs) && |s'.pcs| == |s.pcs|
    requires forall u :: 0 <= u < |s.pcs| && u != t ==> s'.pcs[u] == s.pcs[u]
    requires ArenaOf(h) in s'.arenas && s'.arenas == s.arenas[ArenaOf(h) := s'.arenas[ArenaOf(h)]]
    requires ArenaMoves(s.arenas[ArenaOf(h)], s'.arenas[ArenaOf(h)], t, |s.contexts|)
    requires ArenaOk(s', ArenaOf(h))
    requires PcOk(s', t) && TlsOk(s', t)
    ensures Inv(s')
  {
    LocalKeeps(s, s', t, ArenaOf(h), |s.contexts|);
  }

  /** The arena and context facts about a slot with handle `h`. */
  lemma SlotFacts(s: State, h: U32)
    requires Inv(s) && HandleOk(s, h) && !LocAt(s, h).Absent?
    ensures ArenaOk(s, ArenaOf(h)) && HandleOf(ArenaOf(h), SlotOf(h)) == h
    ensures var arena := s.arenas[ArenaOf(h)]; var ctx := s.contexts[arena.owner].value;
      && arena.pos < ctx.active
      && SlotOk(s, ArenaOf(h), arena, ctx, SlotOf(h))
  {
    EveryWordIsAHandle(h);
    assert ArenaOk(s, ArenaOf(h));
    var arena := s.arenas[ArenaOf(h)];
    assert SlotOf(h) < s.size;
    assert arena.pos < s.contexts[arena.owner].value.active ==>
      SlotOk(s, ArenaOf(h), arena, s.contexts[arena.owner].value, SlotOf(h));
  }

  /** Changing the place and word of one slot that is on no chain keeps its arena well-formed. */
  lemma ArenaSlotOk(s: State, s': State, t: nat, h: U32, loc: Loc, w: U32)
    requires Inv(s) && AtPc(s, t) && HandleOk(s, h) && !LocAt(s, h).Absent?
    requires !LocAt(s, h).OnStack? && !LocAt(s, h).OnLocal? && !OthersSlot(LocAt(s, h), t)
    requires HoldsSlot(s.pcs[t]) ==> s.pcs[t].handle == h
    requires s' == s.(arenas := s.arenas[ArenaOf(h) := PutSlot(s.arenas[ArenaOf(h)], SlotOf(h), loc, w)], pcs := s'.pcs)
    requires |s'.pcs| == |s.pcs| && forall u :: 0 <= u < |s.pcs| && u != t ==> s'.pcs[u] == s.pcs[u]
    requires loc == Allocated ==> w == h
    requires loc == Allocated || (loc == Pushing(t) && IsPush(s'.pcs[t]) && s'.pcs[t].handle == h)
    ensures ArenaOk(s', ArenaOf(h)) && ArenaMoves(s.arenas[ArenaOf(h)], s'.arenas[ArenaOf(h)], t, |s.contexts|)
  {
    SlotFacts(s, h);
    var a := ArenaOf(h);
    var arena, arena' := s.arenas[a], s'.arenas[a];
    var ctx := s.contexts[arena.owner].value;
    forall j | 0 <= j < s.size ensures SlotOk(s', a, arena', ctx, j) {
      assert SlotOk(s, a, arena, ctx, j);
    }
  }

  lemma DeliverKeeps(s: State, t: nat)
    requires Inv(s) && AtPc(s, t) && s.pcs[t].Got? && HasSlot(s, s.pcs[t].handle)
    ensures Inv(DoDeliver(s, t))
  {
    var s' := DoDeliver(s, t);
    var h := s.pcs[t].handle;
    assert PcOk(s, t) && TlsOk(s, t);
    SlotFacts(s, h);
    ArenaSlotOk(s, s', t, h, Allocated, WordAt(s, h));
    SlotKeeps(s, s', t, h);
  }

  lemma PushBeginKeeps(s: State, t: nat, h: U32)
    requires Inv(s) && IsIdle(s, t) && HandleOk(s, h) && LocAt(s, h).Allocated?
    ensures Inv(DoPushBegin(s, t, h))
  {
    var s' := DoPushBegin(s, t, h);
    assert PcOk(s, t) && TlsOk(s, t);
    SlotFacts(s, h);
    ArenaSlotOk(s, s', t, h, Pushing(t), WordAt(s, h));
    SlotKeeps(s, s', t, h);
  }

  lemma PushMoveKeeps(s: State, t: nat, pc: Pc)
    requires Inv(s) && AtPc(s, t) && (s.pcs[t].PushLoad? || s.pcs[t].PushTry?)
    requires pc.PushLink? && pc.handle == s.pcs[t].handle
    ensures Inv(Goto(s, t, pc))
  {
    var s' := Goto(s, t, pc);
    var h := s.pcs[t].handle;
    assert PcOk(s, t) && TlsOk(s, t);
    SlotFacts(s, h);
    var arena := s.arenas[ArenaOf(h)];
    assert arena == PutSlot(arena, SlotOf(h), LocAt(s, h), WordAt(s, h));
    assert s.arenas == s.arenas[ArenaOf(h) := arena];
    ArenaSlotOk(s, s', t, h, LocAt(s, h), WordAt(s, h));
    SlotKeeps(s, s', t, h);
  }

  lemma StoreLinkKeeps(s: State, t: nat)
    requires Inv(s) && AtPc(s, t) && s.pcs[t].PushLink? && HasSlot(s, s.pcs[t].handle)
    ensures Inv(DoStoreLink(s, t))
  {
    var s' := DoStoreLink(s, t);
    var h := s.pcs[t].handle;
    assert PcOk(s, t) && TlsOk(s, t);
    ArenaSlotOk(s, s', t, h, LocAt(s, h), s.pcs[t].seen.lo);
    SlotKeeps(s, s', t, h);
  }

  predicate Landing(s: State, t: nat) {
    && AtPc(s, t) && s.pcs[t].PushTry? && HasSlot(s, s.pcs[t].handle)
    && s.arenas[ArenaOf(s.pcs[t].handle)].top == s.pcs[t].seen
  }

  /** Pushing slot `top` on the stack of its arena, seen from slot `j`. */
  lemma PushSlot(s: State, s': State, t: nat, a: nat, arena: Arena, arena': Arena, ctx: Context, top: nat, j: nat)
    requires s'.size == s.size < SLOT_SPAN && AtPc(s, t) && a < MAX_ARENAS && 0 < top < s.size && j < s.size
    requires |arena.locs| == |arena.words| == s.size
    requires InChain(s.size, arena.stack) && InChain(s.size, ctx.chain)
    requires SlotOk(s, a, arena, ctx, j)
    requires IsPush(s.pcs[t]) && IsHandle(s.pcs[t].handle, a, top) && s'.pcs == s.pcs[t := Idle]
    requires arena.locs[top] == Pushing(t) && arena.words[top] == Below(a, arena.stack, |arena.stack|)
    requires arena'.words == arena.words && arena'.stack == arena.stack + [top]
    requires arena'.locs == arena.locs[top := OnStack(|arena.stack|)]
    ensures SlotOk(s', a, arena', ctx, j)
  {
  }

  /** A push whose compare-and-swap succeeds, even after the stack was stolen and rebuilt in
      between, puts the slot on top of the stack that is there now, with the right depth. */
  lemma PushArena(s: State, t: nat)
    requires Landing(s, t) && SizeOk(s) && PcOk(s, t)
    requires ArenaOk(s, ArenaOf(s.pcs[t].handle))
    requires HandleOf(ArenaOf(s.pcs[t].handle), SlotOf(s.pcs[t].handle)) == s.pcs[t].handle
    requires var arena := s.arenas[ArenaOf(s.pcs[t].handle)]; arena.pos < s.contexts[arena.owner].value.active
    ensures var a := ArenaOf(s.pcs[t].handle); var s' := DoTryPush(s, t, false);
      ArenaOk(s', a) && ArenaMoves(s.arenas[a], s'.arenas[a], t, |s.contexts|)
  {
    var h := s.pcs[t].handle;
    var s' := DoTryPush(s, t, false);
    var a := ArenaOf(h);
    var arena, arena' := s.arenas[a], s'.arenas[a];
    var ctx := s.contexts[arena.owner].value;
    StackBound(arena, s.size);
    forall j | 0 <= j < s.size ensures SlotOk(s', a, arena', ctx, j) {
      assert SlotOk(s, a, arena, ctx, j);
      PushSlot(s, s', t, a, arena, arena', ctx, SlotOf(h), j);
    }
  }

  lemma TryPushKeeps(s: State, t: nat, spurious: bool)
    requires Inv(s) && AtPc(s, t) && s.pcs[t].PushTry? && HasSlot(s, s.pcs[t].handle)
    ensures Inv(DoTryPush(s, t, spurious))
  {
    var s' := DoTryPush(s, t, spurious);
    var h := s.pcs[t].handle;
    assert PcOk(s, t) && TlsOk(s, t);
    if s.arenas[ArenaOf(h)].top == s.pcs[t].seen && !spurious {
      SlotFacts(s, h);
      PushArena(s, t);
      SlotKeeps(s, s', t, h);
    } else {
      PushMoveKeeps(s, t, s'.pcs[t]);
    }
  }

  predicate IsRegistryEvent(e: Event) {
    || e.Register? || e.ScanTid? || e.TryTid? || e.Adopt? || e.Exit? || e.CheckOnExit? || e.DropOnExit? || e.StoreTid?
  }

  lemma RegistryStepKeeps(s: State, e: Event)
    requires Inv(s) && Enabled(s, e) && IsRegistryEvent(e)
    ensures Inv(Apply(s, e))
  {
    assert PcOk(s, e.t) && TlsOk(s, e.t);
    match e
    case Register(t) => MoveKeeps(s, t, RegScan(0));
    case ScanTid(t) => MoveKeeps(s, t, DoScanTid(s, t).pcs[t]);
    case TryTid(t) => TryTidKeeps(s, t);
    case Adopt(t) => AdoptKeeps(s, t);
    case Exit(t) => ExitKeeps(s, t);
    case CheckOnExit(t) => CheckOnExitKeeps(s, t);
    case DropOnExit(t, top, words) => DropKeeps(s, t, top, words, ExitCheck(s.pcs[t].c));
    case StoreTid(t) => StoreTidKeeps(s, t);
  }

  /** Every step of the allocator and of the registry keeps the invariant. */
  lemma StepKeeps(s: State, e: Event)
    requires Inv(s) && Enabled(s, e)
    ensures Inv(Apply(s, e))
  {
    match e
    case AllocBegin(t) => AllocBeginKeeps(s, t);
    case Check(t) => CheckKeeps(s, t);
    case Drop(t, top, words) => assert PcOk(s, t); DropKeeps(s, t, top, words, AllocPop(s.pcs[t].c));
    case Pop(t) => if LocalEmpty(s.contexts[s.pcs[t].c].value) { PopEmptyKeeps(s, t); } else { PopAnyKeeps(s, t); }
    case Scan(t) => ScanKeeps(s, t);
    case Steal(t) => StealKeeps(s, t);
    case Grow(t) =>
      if s.contexts[s.pcs[t].c].value.active < |s.contexts[s.pcs[t].c].value.owned| {
        ReuseKeeps(s, t);
      } else {
        DrawKeeps(s, t);
      }
    case Setup(t) => SetupKeeps(s, t);
    case Deliver(t) => DeliverKeeps(s, t);
    case PushBegin(t, h) => PushBeginAnyKeeps(s, t, h);
    case LoadTop(t) => PushMoveKeeps(s, t, DoLoadTop(s, t).pcs[t]);
    case StoreLink(t) => StoreLinkKeeps(s, t);
    case TryPush(t, spurious) => TryPushKeeps(s, t, spurious);
    case _ => RegistryStepKeeps(s, e);
  }

  lemma PopAnyKeeps(s: State, t: nat)
    requires Inv(s) && AtPc(s, t) && (s.pcs[t].AllocPop? || s.pcs[t].AllocLast?) && CanPop(s, s.pcs[t].c)
    requires !LocalEmpty(s.contexts[s.pcs[t].c].value)
    ensures Inv(DoPop(s, t))
  {
    assert ContextOk(s, s.pcs[t].c, s.contexts[s.pcs[t].c].value);
    PopKeeps(s, t);
  }

  /** Slot 0 of an arena, the sentinel, is never allocated. */
  lemma PushBeginAnyKeeps(s: State, t: nat, h: U32)
    requires Inv(s) && IsIdle(s, t) && HasSlot(s, h) && LocAt(s, h).Allocated?
    ensures Inv(DoPushBegin(s, t, h))
  {
    var arena := s.arenas[ArenaOf(h)];
    assert ArenaOk(s, ArenaOf(h));
    assert arena.pos < s.contexts[arena.owner].value.active ==>
      SlotOk(s, ArenaOf(h), arena, s.contexts[arena.owner].value, SlotOf(h));
    PushBeginKeeps(s, t, h);
  }
}
