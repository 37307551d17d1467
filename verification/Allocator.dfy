/**
 32-bit handles: [arena index : 20 | slot index : 12].
 */
module Handles {
  import opened Words

  const SLOT_SPAN: nat := 4096
  const MAX_ARENAS: nat := 0x10_0000

  function HandleOf(a: nat, j: nat): U32
    requires a < MAX_ARENAS && j < SLOT_SPAN
  {
    a * SLOT_SPAN + j
  }

  function ArenaOf(h: U32): nat {
    h / SLOT_SPAN
  }

  function SlotOf(h: U32): nat {
    h % SLOT_SPAN
  }

  /** Handles decode to what they were built from, and no slot but the last of the last arena
      has the handle that means NULL. */
  lemma HandleRoundTrip(a: nat, j: nat)
    requires a < MAX_ARENAS && j < SLOT_SPAN
    ensures ArenaOf(HandleOf(a, j)) == a && SlotOf(HandleOf(a, j)) == j
    ensures HandleOf(a, j) == HANDLE_NULL <==> a == MAX_ARENAS - 1 && j == SLOT_SPAN - 1
  {
  }

  lemma EveryWordIsAHandle(h: U32)
    ensures ArenaOf(h) < MAX_ARENAS && SlotOf(h) < SLOT_SPAN && HandleOf(ArenaOf(h), SlotOf(h)) == h
  {
  }
}

/**
 The arena allocator of atomsnap.c and the registry of thread contexts, as a step machine.

 Each arena has a shared stack that any thread pushes onto, by loading the top, storing the
 link and a weak compare-and-swap, and that only the owner of the arena takes from, by an
 exchange of the whole stack.  `words` is the memory that holds the link of a free slot and
 the own handle of an allocated one.  `stack`, `chain` and `locs` are history: the chains as
 sequences with the top last, and the one place where each slot is.  The number of slots per
 arena is `size`.
 */
module Allocator {
  import opened Words
  import opened Handles

  datatype Loc =
    | Absent                  // the arena is not active, or this is the sentinel
    | OnStack(index: nat)
    | OnLocal(index: nat)
    | InHand(thread: nat)     // popped by a thread whose call has not returned yet
    | Allocated
    | Pushing(thread: nat)    // inside free_slot

  datatype Arena = Arena(
    top: Word,
    words: seq<U32>,
    owner: nat,
    pos: nat,                 // position in the vectors of its owner
    stack: seq<nat>,
    locs: seq<Loc>)

  datatype Context = Context(
    owned: seq<nat>,          // arena indices, reclaimed ones included
    active: nat,
    localTop: U32,
    count: nat,
    chain: seq<nat>,          // the local chain, all in arena `home`
    home: nat)

  datatype Pc =
    | Idle
    | RegScan(i: nat) | RegTry(i: nat) | RegAdopt(c: nat)
    | ExitCheck(c: nat) | ExitDrop(c: nat) | ExitStore(c: nat)
    | AllocCheck(c: nat) | AllocDrop(c: nat) | AllocPop(c: nat)
    | AllocScan(c: nat, k: nat) | AllocSteal(c: nat, k: nat)
    | AllocGrow(c: nat) | AllocSetup(c: nat, a: nat) | AllocLast(c: nat)
    | Got(handle: U32)
    | PushLoad(handle: U32) | PushLink(handle: U32, seen: Word) | PushTry(handle: U32, seen: Word)

  datatype State = State(
    size: nat,
    arenas: map<nat, Arena>,
    takers: seq<nat>,                 // the thread that drew each arena index; its length is the global counter
    used: seq<bool>,
    contexts: seq<Option<Context>>,
    owners: seq<Option<nat>>,         // the thread that each used context belongs to
    tls: seq<Option<nat>>,
    pcs: seq<Pc>,
    failed: bool)                     // the assertion after the batch steal failed

  datatype Event =
    | Register(t: nat) | ScanTid(t: nat) | TryTid(t: nat) | Adopt(t: nat)
    | Exit(t: nat) | CheckOnExit(t: nat) | DropOnExit(t: nat, top: Word, words: seq<U32>) | StoreTid(t: nat)
    | AllocBegin(t: nat) | Check(t: nat) | Drop(t: nat, top: Word, words: seq<U32>)
    | Pop(t: nat) | Scan(t: nat) | Steal(t: nat) | Grow(t: nat) | Setup(t: nat)
    | Deliver(t: nat)
    | PushBegin(t: nat, handle: U32) | LoadTop(t: nat) | StoreLink(t: nat) | TryPush(t: nat, spurious: bool)

  function Sentinel(a: nat): U32
    requires a < MAX_ARENAS
  {
    HandleOf(a, 0)
  }

  predicate HasArena(s: State, a: nat) {
    a in s.arenas && a < MAX_ARENAS
  }

  predicate HasSlot(s: State, h: U32) {
    HasArena(s, ArenaOf(h)) && SlotOf(h) < |s.arenas[ArenaOf(h)].words| && SlotOf(h) < |s.arenas[ArenaOf(h)].locs|
  }

  function WordAt(s: State, h: U32): U32
    requires HasSlot(s, h)
  {
    s.arenas[ArenaOf(h)].words[SlotOf(h)]
  }

  function LocAt(s: State, h: U32): Loc
    requires HasSlot(s, h)
  {
    s.arenas[ArenaOf(h)].locs[SlotOf(h)]
  }

  predicate HasContext(s: State, c: nat) {
    c < |s.contexts| && s.contexts[c].Some?
  }

  /** The `k`-th arena of context `c` can be read. */
  predicate HasOwned(s: State, c: nat, k: nat) {
    HasContext(s, c) && k < |s.contexts[c].value.owned| && HasArena(s, s.contexts[c].value.owned[k])
  }

  predicate AtPc(s: State, t: nat) {
    t < |s.pcs| && t < |s.tls|
  }

  predicate IsIdle(s: State, t: nat) {
    AtPc(s, t) && s.pcs[t].Idle?
  }

  predicate InRegistry(s: State, c: nat) {
    c < |s.used| && c < |s.contexts| && c < |s.owners|
  }

  /** The last active arena of context `c` can be read. */
  predicate HasLast(s: State, c: nat) {
    HasContext(s, c) && s.contexts[c].value.active > 0 && HasOwned(s, c, s.contexts[c].value.active - 1)
  }

  function Last(s: State, c: nat): nat
    requires HasLast(s, c)
  {
    s.contexts[c].value.owned[s.contexts[c].value.active - 1]
  }

  /** One sentinel and at least one usable slot; the slot indices leave room for HANDLE_NULL. */
  predicate SizeOk(s: State) {
    2 <= s.size < SLOT_SPAN
  }

  /** The calls and steps that can happen next.  A call begins outside any other call; an
      allocating or exiting thread is registered; only allocated slots are freed. */
  predicate Enabled(s: State, e: Event) {
    !s.failed && SizeOk(s) && AtPc(s, e.t) &&
    match e
    case Register(t) => s.pcs[t].Idle? && s.tls[t].None?
    case ScanTid(t) => s.pcs[t].RegScan?
    case TryTid(t) => s.pcs[t].RegTry? && InRegistry(s, s.pcs[t].i)
    case Adopt(t) => s.pcs[t].RegAdopt? && InRegistry(s, s.pcs[t].c)
    case Exit(t) => s.pcs[t].Idle? && s.tls[t].Some?
    case CheckOnExit(t) => s.pcs[t].ExitCheck? && CanCheckOnExit(s, s.pcs[t].c)
    case DropOnExit(t, _, words) => s.pcs[t].ExitDrop? && HasLast(s, s.pcs[t].c) && |words| == s.size
    case StoreTid(t) => s.pcs[t].ExitStore? && InRegistry(s, s.pcs[t].c)
    case AllocBegin(t) => s.pcs[t].Idle? && s.tls[t].Some? && HasContext(s, s.tls[t].value)
    case Check(t) => s.pcs[t].AllocCheck? && HasLast(s, s.pcs[t].c)
    case Drop(t, _, words) => s.pcs[t].AllocDrop? && HasLast(s, s.pcs[t].c) && |words| == s.size
    case Pop(t) => (s.pcs[t].AllocPop? || s.pcs[t].AllocLast?) && CanPop(s, s.pcs[t].c)
    case Scan(t) => s.pcs[t].AllocScan? && CanScan(s, s.pcs[t].c, s.pcs[t].k)
    case Steal(t) => s.pcs[t].AllocSteal? && HasOwned(s, s.pcs[t].c, s.pcs[t].k)
    case Grow(t) => s.pcs[t].AllocGrow? && CanGrow(s, s.pcs[t].c)
    case Setup(t) => s.pcs[t].AllocSetup? && HasContext(s, s.pcs[t].c) && s.pcs[t].a < MAX_ARENAS
    case Deliver(t) => s.pcs[t].Got? && HasSlot(s, s.pcs[t].handle)
    case PushBegin(t, handle) => s.pcs[t].Idle? && HasSlot(s, handle) && LocAt(s, handle).Allocated?
    case LoadTop(t) => s.pcs[t].PushLoad? && HasArena(s, ArenaOf(s.pcs[t].handle))
    case StoreLink(t) => s.pcs[t].PushLink? && HasSlot(s, s.pcs[t].handle)
    case TryPush(t, _) => s.pcs[t].PushTry? && HasSlot(s, s.pcs[t].handle)
  }

  predicate LocalEmpty(ctx: Context) {
    ctx.localTop == HANDLE_NULL || SlotOf(ctx.localTop) == 0
  }

  predicate CanCheckOnExit(s: State, c: nat) {
    HasContext(s, c) && (s.contexts[c].value.active > 0 ==> HasLast(s, c))
  }

  predicate CanScan(s: State, c: nat, k: nat) {
    HasContext(s, c) && (k < s.contexts[c].value.active ==> HasOwned(s, c, k))
  }

  predicate CanGrow(s: State, c: nat) {
    && HasContext(s, c)
    && (s.contexts[c].value.active < |s.contexts[c].value.owned| ==> HasOwned(s, c, s.contexts[c].value.active))
  }

  predicate CanPop(s: State, c: nat) {
    HasContext(s, c) && (LocalEmpty(s.contexts[c].value) || HasSlot(s, s.contexts[c].value.localTop))
  }

  function Goto(s: State, t: nat, pc: Pc): State
    requires AtPc(s, t)
  {
    s.(pcs := s.pcs[t := pc])
  }

  /** The slot with handle `h` moves to `loc` and its word becomes `w`. */
  function PutSlot(arena: Arena, j: nat, loc: Loc, w: U32): Arena
    requires j < |arena.words| && j < |arena.locs|
  {
    arena.(words := arena.words[j := w], locs := arena.locs[j := loc])
  }

  predicate IsFull(s: State, top: Word) {
    top.hi == s.size - 1
  }

  // Registration and exit.

  function DoScanTid(s: State, t: nat): State
    requires AtPc(s, t) && s.pcs[t].RegScan?
  {
    var i := s.pcs[t].i;
    if i >= |s.used| then Goto(s, t, Idle)
    else if s.used[i] then Goto(s, t, RegScan(i + 1))
    else Goto(s, t, RegTry(i))
  }

  function DoTryTid(s: State, t: nat): State
    requires AtPc(s, t) && s.pcs[t].RegTry? && InRegistry(s, s.pcs[t].i)
  {
    var i := s.pcs[t].i;
    if s.used[i] then Goto(s, t, RegScan(i + 1))
    else s.(used := s.used[i := true], owners := s.owners[i := Some(t)], pcs := s.pcs[t := RegAdopt(i)])
  }

  function NewContext(): Context {
    Context([], 0, HANDLE_NULL, 0, [], 0)
  }

  function DoAdopt(s: State, t: nat): State
    requires AtPc(s, t) && s.pcs[t].RegAdopt? && InRegistry(s, s.pcs[t].c)
  {
    var c := s.pcs[t].c;
    s.(contexts := s.contexts[c := if s.contexts[c].None? then Some(NewContext()) else s.contexts[c]],
       tls := s.tls[t := Some(c)], pcs := s.pcs[t := Idle])
  }

  function DoExit(s: State, t: nat): State
    requires AtPc(s, t) && s.tls[t].Some?
  {
    s.(tls := s.tls[t := None], pcs := s.pcs[t := ExitCheck(s.tls[t].value)])
  }

  function DoCheckOnExit(s: State, t: nat): State
    requires AtPc(s, t) && s.pcs[t].ExitCheck? && CanCheckOnExit(s, s.pcs[t].c)
  {
    var c := s.pcs[t].c;
    if s.contexts[c].value.active > 0 && IsFull(s, s.arenas[Last(s, c)].top) then Goto(s, t, ExitDrop(c))
    else Goto(s, t, ExitStore(c))
  }

  /** `madvise` leaves arbitrary contents in the last active arena, which then is not active. */
  function DoDrop(s: State, t: nat, c: nat, top: Word, words: seq<U32>, pc: Pc): State
    requires AtPc(s, t) && HasLast(s, c)
  {
    var a := Last(s, c);
    var ctx := s.contexts[c].value;
    s.(arenas := s.arenas[a := s.arenas[a].(top := top, words := words, stack := [], locs := seq(s.size, _ => Absent))],
       contexts := s.contexts[c := Some(ctx.(active := ctx.active - 1))],
       pcs := s.pcs[t := pc])
  }

  function DoStoreTid(s: State, t: nat): State
    requires AtPc(s, t) && s.pcs[t].ExitStore? && InRegistry(s, s.pcs[t].c)
  {
    var c := s.pcs[t].c;
    s.(used := s.used[c := false], owners := s.owners[c := None], pcs := s.pcs[t := Idle])
  }

  // Allocation, by the owner of the context.

  function DoAllocBegin(s: State, t: nat): State
    requires AtPc(s, t) && s.tls[t].Some? && HasContext(s, s.tls[t].value) && SizeOk(s)
  {
    var c := s.tls[t].value;
    var ctx := s.contexts[c].value;
    s.(contexts := s.contexts[c := Some(ctx.(count := ctx.count + 1))],
       pcs := s.pcs[t := if (ctx.count + 1) % s.size == 0 && ctx.active > 0 then AllocCheck(c) else AllocPop(c)])
  }

  function DoCheck(s: State, t: nat): State
    requires AtPc(s, t) && s.pcs[t].AllocCheck? && HasLast(s, s.pcs[t].c)
  {
    var c := s.pcs[t].c;
    Goto(s, t, if IsFull(s, s.arenas[Last(s, c)].top) then AllocDrop(c) else AllocPop(c))
  }

  /** `pop_local`.  An empty local chain sends a first attempt on to the arenas; a last
      attempt returns HANDLE_NULL. */
  function DoPop(s: State, t: nat): State
    requires AtPc(s, t) && (s.pcs[t].AllocPop? || s.pcs[t].AllocLast?) && CanPop(s, s.pcs[t].c)
  {
    var c := s.pcs[t].c;
    var ctx := s.contexts[c].value;
    if LocalEmpty(ctx) then
      s.(contexts := s.contexts[c := Some(ctx.(localTop := HANDLE_NULL))],
         pcs := s.pcs[t := if s.pcs[t].AllocPop? then AllocScan(c, 0) else Idle])
    else
      var h := ctx.localTop;
      var a := ArenaOf(h);
      s.(arenas := s.arenas[a := PutSlot(s.arenas[a], SlotOf(h), InHand(t), h)],
         contexts := s.contexts[c := Some(ctx.(localTop := WordAt(s, h),
                                              chain := if ctx.chain == [] then [] else ctx.chain[..|ctx.chain| - 1]))],
         pcs := s.pcs[t := Got(h)])
  }

  function DoScan(s: State, t: nat): State
    requires AtPc(s, t) && s.pcs[t].AllocScan? && CanScan(s, s.pcs[t].c, s.pcs[t].k)
  {
    var AllocScan(c, k) := s.pcs[t];
    var ctx := s.contexts[c].value;
    if k >= ctx.active then Goto(s, t, AllocGrow(c))
    else if s.arenas[ctx.owned[k]].top.lo == Sentinel(ctx.owned[k]) then Goto(s, t, AllocScan(c, k + 1))
    else Goto(s, t, AllocSteal(c, k))
  }

  /** The place of each slot after its stack has become the local chain. */
  function Stolen(locs: seq<Loc>): seq<Loc> {
    seq(|locs|, j requires 0 <= j < |locs| => match locs[j] case OnStack(p) => OnLocal(p) case _ => locs[j])
  }

  function DoSteal(s: State, t: nat): State
    requires AtPc(s, t) && s.pcs[t].AllocSteal? && HasOwned(s, s.pcs[t].c, s.pcs[t].k)
  {
    var AllocSteal(c, k) := s.pcs[t];
    var ctx := s.contexts[c].value;
    var a := ctx.owned[k];
    var arena := s.arenas[a];
    if arena.top.lo == Sentinel(a) then s.(failed := true)
    else
      s.(arenas := s.arenas[a := arena.(top := Word(0, Sentinel(a)), stack := [], locs := Stolen(arena.locs))],
         contexts := s.contexts[c := Some(ctx.(localTop := arena.top.lo, chain := arena.stack, home := a))],
         pcs := s.pcs[t := AllocLast(c)])
  }

  /** The links that `setup_arena_stack` writes: slot `j` points to slot `j - 1`, down to the sentinel. */
  function FreshWords(a: nat, size: nat): seq<U32>
    requires a < MAX_ARENAS && size <= SLOT_SPAN
  {
    seq(size, j requires 0 <= j < size => if j == 0 then HANDLE_NULL else HandleOf(a, j - 1))
  }

  function FreshLocs(size: nat): seq<Loc> {
    seq(size, j requires 0 <= j < size => if j == 0 then Absent else OnLocal(j - 1))
  }

  function FreshChain(size: nat): seq<nat>
    requires size > 0
  {
    seq(size - 1, p requires 0 <= p < size - 1 => p + 1)
  }

  function FreshArena(a: nat, size: nat, owner: nat, pos: nat): Arena
    requires a < MAX_ARENAS && size <= SLOT_SPAN
  {
    Arena(Word(0, Sentinel(a)), FreshWords(a, size), owner, pos, [], FreshLocs(size))
  }

  /** The context after `init_arena` has set up arena `a` at the end of the active ones. */
  function Grown(ctx: Context, a: nat, size: nat): Context
    requires a < MAX_ARENAS && 0 < size <= SLOT_SPAN
  {
    ctx.(active := ctx.active + 1, localTop := HandleOf(a, size - 1), chain := FreshChain(size), home := a)
  }

  function DoGrow(s: State, t: nat): State
    requires AtPc(s, t) && s.pcs[t].AllocGrow? && CanGrow(s, s.pcs[t].c) && SizeOk(s)
  {
    var c := s.pcs[t].c;
    var ctx := s.contexts[c].value;
    if ctx.active < |ctx.owned| then
      var a := ctx.owned[ctx.active];
      s.(arenas := s.arenas[a := FreshArena(a, s.size, c, ctx.active)],
         contexts := s.contexts[c := Some(Grown(ctx, a, s.size))],
         pcs := s.pcs[t := AllocLast(c)])
    else
      s.(takers := s.takers + [t],
         pcs := s.pcs[t := if |s.takers| >= MAX_ARENAS then Idle else AllocSetup(c, |s.takers|)])
  }

  function DoSetup(s: State, t: nat): State
    requires AtPc(s, t) && s.pcs[t].AllocSetup? && HasContext(s, s.pcs[t].c) && s.pcs[t].a < MAX_ARENAS && SizeOk(s)
  {
    var AllocSetup(c, a) := s.pcs[t];
    var ctx := s.contexts[c].value;
    s.(arenas := s.arenas[a := FreshArena(a, s.size, c, ctx.active)],
       contexts := s.contexts[c := Some(Grown(ctx.(owned := ctx.owned + [a]), a, s.size))],
       pcs := s.pcs[t := AllocLast(c)])
  }

  function DoDeliver(s: State, t: nat): State
    requires AtPc(s, t) && s.pcs[t].Got? && HasSlot(s, s.pcs[t].handle)
  {
    var h := s.pcs[t].handle;
    s.(arenas := s.arenas[ArenaOf(h) := PutSlot(s.arenas[ArenaOf(h)], SlotOf(h), Allocated, WordAt(s, h))],
       pcs := s.pcs[t := Idle])
  }

  // Freeing, by any thread.

  function DoPushBegin(s: State, t: nat, h: U32): State
    requires AtPc(s, t) && HasSlot(s, h)
  {
    s.(arenas := s.arenas[ArenaOf(h) := PutSlot(s.arenas[ArenaOf(h)], SlotOf(h), Pushing(t), WordAt(s, h))],
       pcs := s.pcs[t := PushLoad(WordAt(s, h))])
  }

  function DoLoadTop(s: State, t: nat): State
    requires AtPc(s, t) && s.pcs[t].PushLoad? && HasArena(s, ArenaOf(s.pcs[t].handle))
  {
    Goto(s, t, PushLink(s.pcs[t].handle, s.arenas[ArenaOf(s.pcs[t].handle)].top))
  }

  function DoStoreLink(s: State, t: nat): State
    requires AtPc(s, t) && s.pcs[t].PushLink? && HasSlot(s, s.pcs[t].handle)
  {
    var PushLink(h, seen) := s.pcs[t];
    s.(arenas := s.arenas[ArenaOf(h) := PutSlot(s.arenas[ArenaOf(h)], SlotOf(h), LocAt(s, h), seen.lo)],
       pcs := s.pcs[t := PushTry(h, seen)])
  }

  function DoTryPush(s: State, t: nat, spurious: bool): State
    requires AtPc(s, t) && s.pcs[t].PushTry? && HasSlot(s, s.pcs[t].handle)
  {
    var PushTry(h, seen) := s.pcs[t];
    var arena := s.arenas[ArenaOf(h)];
    if arena.top == seen && !spurious then
      s.(arenas := s.arenas[ArenaOf(h) := arena.(top := Word(Wrap(seen.hi + 1), h),
                                                stack := arena.stack + [SlotOf(h)],
                                                locs := arena.locs[SlotOf(h) := OnStack(|arena.stack|)])],
         pcs := s.pcs[t := Idle])
    else Goto(s, t, PushLink(h, arena.top))
  }

  function Apply(s: State, e: Event): State
    requires Enabled(s, e)
  {
    match e
    case Register(t) => Goto(s, t, RegScan(0))
    case ScanTid(t) => DoScanTid(s, t)
    case TryTid(t) => DoTryTid(s, t)
    case Adopt(t) => DoAdopt(s, t)
    case Exit(t) => DoExit(s, t)
    case CheckOnExit(t) => DoCheckOnExit(s, t)
    case DropOnExit(t, top, words) => DoDrop(s, t, s.pcs[t].c, top, words, ExitCheck(s.pcs[t].c))
    case StoreTid(t) => DoStoreTid(s, t)
    case AllocBegin(t) => DoAllocBegin(s, t)
    case Check(t) => DoCheck(s, t)
    case Drop(t, top, words) => DoDrop(s, t, s.pcs[t].c, top, words, AllocPop(s.pcs[t].c))
    case Pop(t) => DoPop(s, t)
    case Scan(t) => DoScan(s, t)
    case Steal(t) => DoSteal(s, t)
    case Grow(t) => DoGrow(s, t)
    case Setup(t) => DoSetup(s, t)
    case Deliver(t) => DoDeliver(s, t)
    case PushBegin(t, h) => DoPushBegin(s, t, h)
    case LoadTop(t) => DoLoadTop(s, t)
    case StoreLink(t) => DoStoreLink(s, t)
    case TryPush(t, spurious) => DoTryPush(s, t, spurious)
  }

  /** No arenas, no contexts, no thread registered. */
  function Init(size: nat, maxThreads: nat, threads: nat): State {
    State(size, map[], [], seq(maxThreads, _ => false), seq(maxThreads, _ => None), seq(maxThreads, _ => None),
          seq(threads, _ => None), seq(threads, _ => Idle), false)
  }
}
