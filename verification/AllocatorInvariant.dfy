/**
 What every step of the allocator and of the registry keeps.
 */
module AllocatorInvariant {
  import opened Words
  import opened Handles
  import opened Allocator

  /** The link below position `p` of a chain in arena `a`: the next slot down, or the sentinel. */
  function Below(a: nat, chain: seq<nat>, p: nat): U32
    requires a < MAX_ARENAS && p <= |chain| && (p > 0 ==> chain[p - 1] < SLOT_SPAN)
  {
    if p == 0 then Sentinel(a) else HandleOf(a, chain[p - 1])
  }

  predicate InChain(size: nat, chain: seq<nat>) {
    size <= SLOT_SPAN && forall p :: 0 <= p < |chain| ==> 0 < chain[p] < size
  }

  predicate IsPush(pc: Pc) {
    pc.PushLoad? || pc.PushLink? || pc.PushTry?
  }

  predicate IsHandle(h: U32, a: nat, j: nat) {
    ArenaOf(h) == a && SlotOf(h) == j
  }

  /** Slot `j` of the active arena `a` is where `locs` says, and its word is what it must be there. */
  predicate SlotOk(s: State, a: nat, arena: Arena, ctx: Context, j: nat)
    requires a < MAX_ARENAS && j < |arena.locs| && j < |arena.words| && j < SLOT_SPAN
    requires InChain(s.size, arena.stack) && InChain(s.size, ctx.chain)
  {
    if j == 0 then arena.locs[j].Absent? else
    match arena.locs[j]
    case Absent => false
    case OnStack(p) => p < |arena.stack| && arena.stack[p] == j && arena.words[j] == Below(a, arena.stack, p)
    case OnLocal(p) =>
      ctx.home == a && p < |ctx.chain| && ctx.chain[p] == j && arena.words[j] == Below(a, ctx.chain, p)
    case InHand(t) =>
      t < |s.pcs| && s.pcs[t].Got? && IsHandle(s.pcs[t].handle, a, j) && arena.words[j] == HandleOf(a, j)
    case Allocated => arena.words[j] == HandleOf(a, j)
    case Pushing(t) => t < |s.pcs| && IsPush(s.pcs[t]) && IsHandle(s.pcs[t].handle, a, j)
  }

  predicate StackOk(arena: Arena) {
    forall p :: 0 <= p < |arena.stack| ==> 0 < arena.stack[p] < |arena.locs| && arena.locs[arena.stack[p]] == OnStack(p)
  }

  predicate ArenaOk(s: State, a: nat)
    requires a in s.arenas
  {
    var arena := s.arenas[a];
    && a < MAX_ARENAS && a < |s.takers|
    && |arena.words| == |arena.locs| == s.size < SLOT_SPAN
    && HasContext(s, arena.owner)
    && var ctx := s.contexts[arena.owner].value;
      && arena.pos < |ctx.owned| && ctx.owned[arena.pos] == a
      && StackOk(arena)
      && InChain(s.size, arena.stack) && InChain(s.size, ctx.chain)
      && if arena.pos < ctx.active then
           && arena.top == Word(Wrap(|arena.stack|), Below(a, arena.stack, |arena.stack|))
           && forall j {:trigger SlotOk(s, a, arena, ctx, j)} :: 0 <= j < s.size ==> SlotOk(s, a, arena, ctx, j)
         else
           && arena.stack == []
           && forall j :: 0 <= j < s.size ==> arena.locs[j].Absent?
  }

  predicate OwnedOk(s: State, c: nat, ctx: Context, k: nat)
    requires k < |ctx.owned|
  {
    ctx.owned[k] in s.arenas && s.arenas[ctx.owned[k]].owner == c && s.arenas[ctx.owned[k]].pos == k
  }

  predicate ContextOk(s: State, c: nat, ctx: Context) {
    && ctx.active <= |ctx.owned|
    && (forall k {:trigger OwnedOk(s, c, ctx, k)} :: 0 <= k < |ctx.owned| ==> OwnedOk(s, c, ctx, k))
    && InChain(s.size, ctx.chain)
    && if ctx.chain == [] then LocalEmpty(ctx)
       else
         && ctx.home < MAX_ARENAS && ctx.home in s.arenas && s.arenas[ctx.home].owner == c
         && s.arenas[ctx.home].pos < ctx.active
         && ctx.localTop == Below(ctx.home, ctx.chain, |ctx.chain|)
         && forall p :: 0 <= p < |ctx.chain| ==>
              ctx.chain[p] < |s.arenas[ctx.home].locs| && s.arenas[ctx.home].locs[ctx.chain[p]] == OnLocal(p)
  }

  /** Thread `t` is the one that may run the owner's code of context `c`. */
  predicate IsOwner(s: State, t: nat, c: nat) {
    c < |s.owners| && s.owners[c] == Some(t)
  }

  /** The chain of context `c` is empty and `local_top` says so. */
  predicate Drained(s: State, c: nat)
    requires HasContext(s, c)
  {
    s.contexts[c].value.chain == [] && s.contexts[c].value.localTop == HANDLE_NULL
  }

  predicate LastIsFull(s: State, c: nat) {
    HasLast(s, c) && |s.arenas[Last(s, c)].stack| == s.size - 1
  }

  predicate HandleOk(s: State, h: U32) {
    HasSlot(s, h) && SlotOf(h) > 0
  }

  predicate PcOk(s: State, t: nat)
    requires t < |s.pcs|
  {
    match s.pcs[t]
    case Idle => true
    case RegScan(i) => true
    case RegTry(i) => i < |s.used|
    case RegAdopt(c) => IsOwner(s, t, c)
    case ExitCheck(c) => IsOwner(s, t, c) && HasContext(s, c)
    case ExitDrop(c) => IsOwner(s, t, c) && LastIsFull(s, c)
    case ExitStore(c) => IsOwner(s, t, c) && HasContext(s, c)
    case AllocCheck(c) => IsOwner(s, t, c) && HasLast(s, c)
    case AllocDrop(c) => IsOwner(s, t, c) && LastIsFull(s, c)
    case AllocPop(c) => IsOwner(s, t, c) && HasContext(s, c)
    case AllocScan(c, k) => IsOwner(s, t, c) && HasContext(s, c) && Drained(s, c)
    case AllocSteal(c, k) =>
      && IsOwner(s, t, c) && HasOwned(s, c, k) && Drained(s, c)
      && k < s.contexts[c].value.active && s.arenas[s.contexts[c].value.owned[k]].stack != []
    case AllocGrow(c) => IsOwner(s, t, c) && HasContext(s, c) && Drained(s, c)
    case AllocSetup(c, a) =>
      && IsOwner(s, t, c) && HasContext(s, c) && Drained(s, c)
      && s.contexts[c].value.active == |s.contexts[c].value.owned|
      && a < MAX_ARENAS && a < |s.takers| && s.takers[a] == t && a !in s.arenas
    case AllocLast(c) => IsOwner(s, t, c) && HasContext(s, c) && s.contexts[c].value.chain != []
    case Got(h) => HandleOk(s, h) && LocAt(s, h) == InHand(t)
    case PushLoad(h) => HandleOk(s, h) && LocAt(s, h) == Pushing(t)
    case PushLink(h, _) => HandleOk(s, h) && LocAt(s, h) == Pushing(t)
    case PushTry(h, seen) => HandleOk(s, h) && LocAt(s, h) == Pushing(t) && WordAt(s, h) == seen.lo
  }

  /** Thread-local storage names a context of this thread, except while it registers or exits. */
  predicate TlsOk(s: State, t: nat)
    requires AtPc(s, t)
  {
    match s.tls[t]
    case None => !IsAlloc(s.pcs[t])
    case Some(c) =>
      && IsOwner(s, t, c) && HasContext(s, c)
      && (IsAlloc(s.pcs[t]) ==> s.pcs[t].c == c)
      && !(IsRegistering(s.pcs[t]) || IsExiting(s.pcs[t]))
  }

  predicate IsRegistering(pc: Pc) {
    pc.RegScan? || pc.RegTry? || pc.RegAdopt?
  }

  predicate IsExiting(pc: Pc) {
    pc.ExitCheck? || pc.ExitDrop? || pc.ExitStore?
  }

  predicate IsAlloc(pc: Pc) {
    || pc.AllocCheck? || pc.AllocDrop? || pc.AllocPop? || pc.AllocScan? || pc.AllocSteal?
    || pc.AllocGrow? || pc.AllocSetup? || pc.AllocLast?
  }

  predicate Shape(s: State) {
    && SizeOk(s) && !s.failed
    && |s.used| == |s.contexts| == |s.owners|
    && |s.tls| == |s.pcs|
    && (forall c :: 0 <= c < |s.used| ==> (s.used[c] <==> s.owners[c].Some?))
  }

  predicate Inv(s: State) {
    && Shape(s)
    && (forall a {:trigger ArenaOk(s, a)} :: a in s.arenas ==> ArenaOk(s, a))
    && (forall c {:trigger ContextOk(s, c, s.contexts[c].value)} ::
          0 <= c < |s.contexts| && s.contexts[c].Some? ==> ContextOk(s, c, s.contexts[c].value))
    && (forall t {:trigger PcOk(s, t)} {:trigger TlsOk(s, t)} :: 0 <= t < |s.pcs| ==> PcOk(s, t) && TlsOk(s, t))
  }

  // Counting: a stack of distinct slots holds at most all usable ones.

  function Elements(chain: seq<nat>): set<nat> {
    set x | x in chain
  }

  lemma {:induction false} DistinctCount(chain: seq<nat>)
    requires forall p, q :: 0 <= p < q < |chain| ==> chain[p] != chain[q]
    ensures |Elements(chain)| == |chain|
  {
    if chain == [] {
      assert Elements(chain) == {};
    } else {
      var n := |chain| - 1;
      assert chain == chain[..n] + [chain[n]];
      DistinctCount(chain[..n]);
      assert Elements(chain) == Elements(chain[..n]) + {chain[n]};
    }
  }

  function Usable(size: nat): set<nat> {
    if size <= 1 then {} else Usable(size - 1) + {size - 1}
  }

  lemma {:induction false} UsableCount(size: nat)
    requires size > 0
    ensures |Usable(size)| == size - 1
    ensures forall j :: j in Usable(size) <==> 0 < j < size
  {
    if size > 1 { UsableCount(size - 1); }
  }

  lemma SubsetCount<T>(a: set<T>, b: set<T>)
    requires a <= b
    ensures |a| <= |b|
    ensures |a| == |b| ==> a == b
  {
    assert b == a + (b - a);
  }

  /** The shared stack never holds more than `size - 1` slots, and then it holds every usable one. */
  lemma StackBound(arena: Arena, size: nat)
    requires size > 0 && |arena.locs| == size && StackOk(arena)
    ensures |arena.stack| <= size - 1
    ensures |arena.stack| == size - 1 ==> forall j: nat :: 0 < j < size ==> arena.locs[j].OnStack?
  {
    forall p, q | 0 <= p < q < |arena.stack| ensures arena.stack[p] != arena.stack[q] {
      assert arena.locs[arena.stack[p]] == OnStack(p) && arena.locs[arena.stack[q]] == OnStack(q);
    }
    DistinctCount(arena.stack);
    UsableCount(size);
    SubsetCount(Elements(arena.stack), Usable(size));
    if |arena.stack| == size - 1 {
      forall j: nat | 0 < j < size ensures arena.locs[j].OnStack? {
        assert j in Elements(arena.stack);
      }
    }
  }

  // Frames.

  predicate OthersSlot(loc: Loc, t: nat) {
    (loc.InHand? || loc.Pushing?) && loc.thread != t
  }

  /** A change to an arena by thread `t`, which may run the owner's code of context `c`. */
  predicate ArenaMoves(arena: Arena, arena': Arena, t: nat, c: nat) {
    && arena'.owner == arena.owner && arena'.pos == arena.pos
    && |arena'.locs| == |arena.locs| == |arena.words| == |arena'.words|
    && (forall j :: 0 <= j < |arena.locs| && OthersSlot(arena.locs[j], t) ==>
          arena'.locs[j] == arena.locs[j] && arena'.words[j] == arena.words[j])
    && (arena.owner != c ==>
          && |arena.stack| <= |arena'.stack|
          && forall j :: 0 <= j < |arena.locs| && arena.locs[j].OnLocal? ==> arena'.locs[j] == arena.locs[j])
  }

  /** A change to a context, seen from its arenas other than `a`. */
  predicate ContextMoves(size: nat, ctx: Context, ctx': Context, a: nat) {
    && |ctx.owned| <= |ctx'.owned|
    && (forall k :: 0 <= k < |ctx.owned| ==> ctx'.owned[k] == ctx.owned[k])
    && (forall k :: 0 <= k < |ctx.owned| && ctx.owned[k] != a ==> (k < ctx'.active <==> k < ctx.active))
    && InChain(size, ctx'.chain)
    && ((ctx'.chain == ctx.chain && ctx'.home == ctx.home) || ctx.chain == [] || ctx.home == a)
  }

  predicate TableKeeps(s: State, s': State, t: nat, a: nat, c: nat) {
    && (forall b :: b in s.arenas && b != a ==> b in s'.arenas && s'.arenas[b] == s.arenas[b])
    && (forall b :: b in s'.arenas && b != a ==> b in s.arenas)
    && (a in s.arenas ==> a in s'.arenas && ArenaMoves(s.arenas[a], s'.arenas[a], t, c))
    && (a in s'.arenas && a !in s.arenas ==> a < |s.takers| && s.takers[a] == t)
  }

  predicate RegistryKeeps(s: State, s': State, t: nat, a: nat, c: nat) {
    && |s'.used| == |s.used| && |s'.contexts| == |s.contexts| && |s'.owners| == |s.owners|
    && (forall d :: 0 <= d < |s.contexts| && d != c ==> s'.contexts[d] == s.contexts[d])
    && (forall d :: 0 <= d < |s.owners| && d != c ==> s'.owners[d] == s.owners[d])
    && (c < |s.owners| ==> s.owners[c] == Some(t) || s.owners[c] == None)
    && (c < |s.contexts| && s.contexts[c].Some? ==>
          s'.contexts[c].Some? && ContextMoves(s.size, s.contexts[c].value, s'.contexts[c].value, a))
  }

  predicate ThreadsKeep(s: State, s': State, t: nat, a: nat) {
    && |s'.pcs| == |s.pcs| && |s'.tls| == |s.tls|
    && (forall u :: 0 <= u < |s.pcs| && u != t ==> s'.pcs[u] == s.pcs[u])
    && (forall u :: 0 <= u < |s.tls| && u != t ==> s'.tls[u] == s.tls[u])
    && (t < |s.pcs| && (s.pcs[t].Got? || IsPush(s.pcs[t])) ==> ArenaOf(s.pcs[t].handle) == a)
  }

  /** Everything is as before outside thread `t`, arena `a` and context `c`, which no other thread owns. */
  predicate Local(s: State, s': State, t: nat, a: nat, c: nat) {
    && s'.size == s.size
    && |s.takers| <= |s'.takers| && (forall i :: 0 <= i < |s.takers| ==> s'.takers[i] == s.takers[i])
    && TableKeeps(s, s', t, a, c) && RegistryKeeps(s, s', t, a, c) && ThreadsKeep(s, s', t, a)
  }

  lemma ArenaFrame(s: State, s': State, t: nat, a: nat, c: nat, b: nat)
    requires Local(s, s', t, a, c) && b in s.arenas && b != a && ArenaOk(s, b)
    ensures b in s'.arenas && ArenaOk(s', b)
  {
    var arena := s.arenas[b];
    var ctx, ctx' := s.contexts[arena.owner].value, s'.contexts[arena.owner].value;
    if arena.pos < ctx.active {
      forall j | 0 <= j < s.size ensures SlotOk(s', b, arena, ctx', j) {
        assert SlotOk(s, b, arena, ctx, j);
      }
    }
  }

  lemma ContextFrame(s: State, s': State, t: nat, a: nat, c: nat, d: nat)
    requires Local(s, s', t, a, c) && d != c && HasContext(s, d) && ContextOk(s, d, s.contexts[d].value)
    ensures HasContext(s', d) && ContextOk(s', d, s'.contexts[d].value)
  {
    var ctx := s.contexts[d].value;
    forall k | 0 <= k < |ctx.owned| ensures OwnedOk(s', d, ctx, k) {
      assert OwnedOk(s, d, ctx, k);
    }
  }

  /** Others only push onto the arenas of a context: its last one, once full, stays full. */
  lemma LastFrame(s: State, s': State, t: nat, a: nat, c: nat, u: nat, d: nat)
    requires Local(s, s', t, a, c) && SizeOk(s) && u != t && IsOwner(s, u, d) && HasLast(s, d)
    requires OwnedOk(s, d, s.contexts[d].value, s.contexts[d].value.active - 1)
    requires Last(s, d) in s'.arenas ==> ArenaOk(s', Last(s, d))
    ensures IsOwner(s', u, d) && HasLast(s', d)
    ensures LastIsFull(s, d) ==> LastIsFull(s', d)
  {
    var b := Last(s, d);
    assert s'.contexts[d] == s.contexts[d];
    if b == a { assert ArenaMoves(s.arenas[a], s'.arenas[a], t, c); }
    StackBound(s'.arenas[b], s.size);
  }

  /** A slot that another thread has popped or is pushing does not move. */
  lemma HandleFrame(s: State, s': State, t: nat, a: nat, c: nat, u: nat, h: U32)
    requires Local(s, s', t, a, c) && u != t && HandleOk(s, h) && OthersSlot(LocAt(s, h), t)
    ensures HandleOk(s', h) && LocAt(s', h) == LocAt(s, h) && WordAt(s', h) == WordAt(s, h)
  {
    if ArenaOf(h) == a { assert ArenaMoves(s.arenas[a], s'.arenas[a], t, c); }
  }

  lemma StealFrame(s: State, s': State, t: nat, a: nat, c: nat, u: nat, d: nat, k: nat)
    requires Local(s, s', t, a, c) && u != t && t < |s.pcs| && u < |s.pcs| && s.pcs[u] == AllocSteal(d, k) && PcOk(s, u)
    requires OwnedOk(s, d, s.contexts[d].value, k)
    ensures PcOk(s', u)
  {
    var b := s.contexts[d].value.owned[k];
    if b == a { assert ArenaMoves(s.arenas[a], s'.arenas[a], t, c); }
  }

  lemma PcFrame(s: State, s': State, t: nat, a: nat, c: nat, u: nat)
    requires Inv(s) && Local(s, s', t, a, c) && AtPc(s, u) && u != t && t < |s.pcs|
    requires forall b {:trigger ArenaOk(s', b)} :: b in s'.arenas ==> ArenaOk(s', b)
    ensures PcOk(s', u)
  {
    var pc := s.pcs[u];
    assert PcOk(s, u);
    if pc.ExitDrop? || pc.AllocCheck? || pc.AllocDrop? {
      var ctx := s.contexts[pc.c].value;
      assert ContextOk(s, pc.c, ctx);
      assert OwnedOk(s, pc.c, ctx, ctx.active - 1);
      assert ctx.owned[ctx.active - 1] in s'.arenas ==> ArenaOk(s', ctx.owned[ctx.active - 1]);
      LastFrame(s, s', t, a, c, u, pc.c);
    } else if pc.AllocSteal? {
      assert ContextOk(s, pc.c, s.contexts[pc.c].value);
      assert OwnedOk(s, pc.c, s.contexts[pc.c].value, pc.k);
      StealFrame(s, s', t, a, c, u, pc.c, pc.k);
    } else if pc.Got? || IsPush(pc) {
      HandleFrame(s, s', t, a, c, u, pc.handle);
    }
  }

  lemma TlsFrame(s: State, s': State, t: nat, a: nat, c: nat, u: nat)
    requires Local(s, s', t, a, c) && AtPc(s, u) && u != t && TlsOk(s, u)
    ensures TlsOk(s', u)
  {
  }

  /** A step keeps the invariant if it is local and what it touches ends up well-formed. */
  lemma LocalKeeps(s: State, s': State, t: nat, a: nat, c: nat)
    requires Inv(s) && Local(s, s', t, a, c) && Shape(s')
    requires a in s'.arenas ==> ArenaOk(s', a)
    requires HasContext(s', c) ==> ContextOk(s', c, s'.contexts[c].value)
    requires AtPc(s', t) && PcOk(s', t) && TlsOk(s', t)
    ensures Inv(s')
  {
    forall b | b in s'.arenas ensures ArenaOk(s', b) {
      if b != a { assert ArenaOk(s, b); ArenaFrame(s, s', t, a, c, b); }
    }
    forall d | 0 <= d < |s'.contexts| && s'.contexts[d].Some? ensures ContextOk(s', d, s'.contexts[d].value) {
      if d != c { ContextFrame(s, s', t, a, c, d); }
    }
    forall u | 0 <= u < |s'.pcs| ensures PcOk(s', u) && TlsOk(s', u) {
      if u != t {
        assert PcOk(s, u) && TlsOk(s, u);
        PcFrame(s, s', t, a, c, u);
        TlsFrame(s, s', t, a, c, u);
      }
    }
  }
}
