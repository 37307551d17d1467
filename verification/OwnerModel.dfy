/**
 The calls of one context that do not overlap, on the allocator's step machine: what a call
 has in hand between its steps, and which steps hand out or take back a slot.
 */
module OwnerModel {
  import opened Words
  import opened Handles
  import opened Allocator
  import opened AllocatorInvariant
  import AS = AllocatorSteps
  import AT = AllocatorTheorems
  import opened ArenaBound

  /** The same slots are allocated in both states. */
  ghost predicate SameBusy(s: State, s': State) {
    forall a, j :: IsBusy(s, a, j) <==> IsBusy(s', a, j)
  }

  /** Nothing changed hands on the way from `s` to `s'`. */
  ghost predicate Silent(s: State, s': State) {
    SameBusy(s, s') && Busy(s', 0) == Busy(s, 0) && s'.tls == s.tls && s'.size == s.size
  }

  lemma PopSilent(s: State, t: nat)
    requires Inv(s) && Enabled(s, Pop(t))
    ensures SameBusy(s, Apply(s, Pop(t)))
  {
    var c := s.pcs[t].c;
    assert ContextOk(s, c, s.contexts[c].value);
    if s.contexts[c].value.chain != [] { AS.TopOfChain(s, c); }
  }

  lemma DropSilent(s: State, e: Event)
    requires Inv(s) && Enabled(s, e) && (e.Drop? || e.DropOnExit?)
    ensures SameBusy(s, Apply(s, e))
  {
    AT.ReclaimDiscardsNothing(s, e);
    var a := Last(s, s.pcs[e.t].c);
    assert ArenaOk(s, a);
  }

  lemma GrowSilent(s: State, t: nat)
    requires Inv(s) && Enabled(s, Grow(t))
    ensures SameBusy(s, Apply(s, Grow(t)))
  {
    var c := s.pcs[t].c;
    var ctx := s.contexts[c].value;
    assert ContextOk(s, c, ctx);
    if ctx.active < |ctx.owned| { AS.OwnedArena(s, c, ctx.active); }
  }

  lemma SetupSilent(s: State, t: nat)
    requires Inv(s) && Enabled(s, Setup(t))
    ensures SameBusy(s, Apply(s, Setup(t)))
  {
    assert PcOk(s, t);
  }

  lemma PushSilent(s: State, e: Event)
    requires Inv(s) && Enabled(s, e) && (e.LoadTop? || e.StoreLink? || e.TryPush?)
    ensures SameBusy(s, Apply(s, e))
  {
    assert PcOk(s, e.t);
  }

  /** Only the return of an allocation and the begin of a free change which slots are allocated. */
  lemma SilentStep(s: State, e: Event)
    requires Inv(s) && Enabled(s, e) && !e.Deliver? && !e.PushBegin?
    ensures SameBusy(s, Apply(s, e))
  {
    if e.Pop? { PopSilent(s, e.t); }
    else if e.Drop? || e.DropOnExit? { DropSilent(s, e); }
    else if e.Grow? { GrowSilent(s, e.t); }
    else if e.Setup? { SetupSilent(s, e.t); }
    else if e.LoadTop? || e.StoreLink? || e.TryPush? { PushSilent(s, e); }
  }

  /** A state of one thread and one context in a run of calls that do not overlap, with the peak so far. */
  ghost predicate Sound(s: State, peak: nat) {
    && Inv(s) && |s.pcs| == |s.tls| == |s.contexts| == 1 && s.contexts[0].Some?
    && SeqInv(s, 0, peak) && |Busy(s, 0)| <= peak
  }

  lemma OwnedGrows(s: State, e: Event, c: nat)
    requires Inv(s) && Enabled(s, e) && HasContext(s, c)
    ensures var s' := Apply(s, e);
      && HasContext(s', c) && s'.size == s.size
      && (s'.contexts[c].value.owned == s.contexts[c].value.owned ||
          (exists a :: a !in s.arenas && s'.contexts[c].value.owned == s.contexts[c].value.owned + [a]))
  {
    if e.Setup? {
      assert PcOk(s, e.t);
      var a := s.pcs[e.t].a;
      assert a !in s.arenas;
      assert s.pcs[e.t].c == c ==> Apply(s, e).contexts[c].value.owned == s.contexts[c].value.owned + [a];
    }
  }

  lemma SilentBusy(s: State, e: Event)
    requires Inv(s) && Enabled(s, e) && HasContext(s, 0) && SameBusy(s, Apply(s, e))
    ensures Busy(Apply(s, e), 0) == Busy(s, 0)
  {
    OwnedGrows(s, e, 0);
  }

  lemma OneThread(s: State, e: Event)
    requires Enabled(s, e)
    ensures |Apply(s, e).pcs| == |s.pcs| && |Apply(s, e).tls| == |s.tls| && |Apply(s, e).contexts| == |s.contexts|
  {
  }

  /** A silent step keeps everything, the peak included. */
  lemma SilentKeeps(s: State, e: Event, peak: nat)
    requires Sound(s, peak) && Enabled(s, e) && !e.Deliver? && !e.PushBegin? && !e.Adopt? && !e.Exit?
    ensures Sound(Apply(s, e), peak) && Silent(s, Apply(s, e))
  {
    SilentStep(s, e);
    SilentBusy(s, e);
    AnyKeeps(s, e, peak, peak);
  }

  lemma AloneNoOverlap(s: State)
    requires |s.pcs| == 1
    ensures NoOverlap(s, 0)
  {
  }

  lemma AnyKeeps(s: State, e: Event, peak: nat, peak': nat)
    requires Sound(s, peak) && Enabled(s, e) && peak <= peak' && |Busy(Apply(s, e), 0)| <= peak'
    ensures Sound(Apply(s, e), peak')
  {
    OneThread(s, e);
    OwnedGrows(s, e, 0);
    AS.StepKeeps(s, e);
    AloneNoOverlap(s);
    AloneNoOverlap(Apply(s, e));
    StepKeepsBound(s, e, 0, peak, peak');
  }

  /** Slot `h` becomes allocated, and nothing else changes hands. */
  ghost predicate HandsOut(s: State, s': State, h: U32) {
    !IsBusy(s, ArenaOf(h), SlotOf(h)) &&
    forall a, j :: IsBusy(s', a, j) <==> IsBusy(s, a, j) || (a == ArenaOf(h) && j == SlotOf(h))
  }

  lemma DeliverHandsOut(s: State)
    requires Inv(s) && |s.pcs| == 1 && s.pcs[0].Got?
    ensures Enabled(s, Deliver(0)) && HandsOut(s, Apply(s, Deliver(0)), s.pcs[0].handle)
    ensures s.pcs[0].handle != HANDLE_NULL
  {
    assert PcOk(s, 0) && TlsOk(s, 0);
    var h := s.pcs[0].handle;
    assert ArenaOk(s, ArenaOf(h));
    EveryWordIsAHandle(h);
    HandleRoundTrip(ArenaOf(h), SlotOf(h));
  }

  /** The position in the vectors of the arena that handle `h` names. */
  lemma PlaceOf(s: State, h: U32)
    requires Inv(s) && |s.contexts| == 1 && ArenaOf(h) in s.arenas
    ensures var arena := s.arenas[ArenaOf(h)];
      && HasContext(s, 0) && arena.pos < |s.contexts[0].value.owned|
      && s.contexts[0].value.owned[arena.pos] == ArenaOf(h)
      && |arena.locs| == s.size
      && forall i ::
           0 <= i < |s.contexts[0].value.owned| && s.contexts[0].value.owned[i] == ArenaOf(h) ==> i == arena.pos
  {
    assert ArenaOk(s, ArenaOf(h));
    var ctx := s.contexts[0].value;
    assert ContextOk(s, 0, ctx);
    forall i | 0 <= i < |ctx.owned| && ctx.owned[i] == ArenaOf(h) ensures i == s.arenas[ArenaOf(h)].pos {
      assert OwnedOk(s, 0, ctx, i);
    }
  }

  lemma HandsOutCount(s: State, s': State, h: U32)
    requires Inv(s) && |s.contexts| == 1 && ArenaOf(h) in s.arenas && 0 < SlotOf(h) < s.size && HandsOut(s, s', h)
    requires s'.size == s.size && s'.contexts == s.contexts
    ensures |Busy(s', 0)| == |Busy(s, 0)| + 1
  {
    PlaceOf(s, h);
    assert Busy(s', 0) == Busy(s, 0) + {(s.arenas[ArenaOf(h)].pos, SlotOf(h))};
  }

  function Max(x: nat, y: nat): nat {
    if x < y then y else x
  }

  /** Returning the slot in hand: it was not allocated, it is now, and the peak follows. */
  lemma DeliverKeeps(s: State, peak: nat)
    requires Sound(s, peak) && s.pcs[0].Got?
    ensures Enabled(s, Deliver(0)) && HandsOut(s, Apply(s, Deliver(0)), s.pcs[0].handle)
    ensures |Busy(Apply(s, Deliver(0)), 0)| == |Busy(s, 0)| + 1
    ensures Sound(Apply(s, Deliver(0)), Max(peak, |Busy(s, 0)| + 1))
  {
    assert PcOk(s, 0);
    DeliverHandsOut(s);
    assert ArenaOk(s, ArenaOf(s.pcs[0].handle));
    HandsOutCount(s, Apply(s, Deliver(0)), s.pcs[0].handle);
    AnyKeeps(s, Deliver(0), peak, Max(peak, |Busy(s, 0)| + 1));
  }

  /** Beginning to free an allocated slot is the reverse of handing it out. */
  lemma PushBeginKeeps(s: State, peak: nat, h: U32)
    requires Sound(s, peak) && s.pcs[0].Idle? && IsBusy(s, ArenaOf(h), SlotOf(h))
    ensures Enabled(s, PushBegin(0, h)) && HandsOut(Apply(s, PushBegin(0, h)), s, h)
    ensures |Busy(s, 0)| == |Busy(Apply(s, PushBegin(0, h)), 0)| + 1
    ensures Sound(Apply(s, PushBegin(0, h)), peak)
    ensures Apply(s, PushBegin(0, h)).pcs[0] == PushLoad(h)
  {
    assert ArenaOk(s, ArenaOf(h));
    AT.OverlaidWord(s, h);
    var s' := Apply(s, PushBegin(0, h));
    PlaceOf(s, h);
    assert Busy(s, 0) == Busy(s', 0) + {(s.arenas[ArenaOf(h)].pos, SlotOf(h))};
    AnyKeeps(s, PushBegin(0, h), peak, peak);
  }

  /** The state after a new arena has been drawn and set up. */
  function WithNewArena(s: State): State
    requires |s.pcs| == |s.contexts| == 1 && s.contexts[0].Some? && |s.takers| < MAX_ARENAS && SizeOk(s)
  {
    var a, ctx := |s.takers|, s.contexts[0].value;
    s.(takers := s.takers + [0], pcs := [AllocLast(0)],
       arenas := s.arenas[a := FreshArena(a, s.size, 0, ctx.active)],
       contexts := [Some(Grown(ctx.(owned := ctx.owned + [a]), a, s.size))])
  }

  lemma NewIsGrowThenSetup(s: State)
    requires |s.pcs| == |s.tls| == |s.contexts| == 1 && s.contexts[0].Some? && |s.takers| < MAX_ARENAS && SizeOk(s)
    requires s.pcs[0] == AllocGrow(0) && s.contexts[0].value.active >= |s.contexts[0].value.owned|
    ensures DoGrow(s, 0).pcs[0] == AllocSetup(0, |s.takers|) && WithNewArena(s) == DoSetup(DoGrow(s, 0), 0)
  {
  }

  lemma SilentTrans(s: State, s': State, s'': State)
    requires Silent(s, s') && Silent(s', s'')
    ensures Silent(s, s'')
  {
  }

  /** The call of the one thread can always go on, and concerns its context. */
  lemma CallGoesOn(s: State, peak: nat)
    requires Sound(s, peak) && !s.pcs[0].Idle?
    ensures Enabled(s, AT.NextStep(s, 0))
    ensures (IsAlloc(s.pcs[0]) || IsExiting(s.pcs[0])) ==> s.pcs[0].c == 0
  {
    AT.NeverStuck(s, 0);
    assert PcOk(s, 0) && TlsOk(s, 0);
  }

  /** The state after the periodic check of the last arena. */
  function Checked(s: State, junkTop: Word, junk: seq<U32>): State
    requires AtPc(s, 0) && HasLast(s, 0)
  {
    if IsFull(s, s.arenas[Last(s, 0)].top) then DoDrop(s, 0, 0, junkTop, junk, AllocPop(0)) else Goto(s, 0, AllocPop(0))
  }

  lemma CheckKeeps(s: State, peak: nat, junkTop: Word, junk: seq<U32>)
    requires Sound(s, peak) && s.pcs[0] == AllocCheck(0) && |junk| == s.size && HasLast(s, 0)
    ensures Sound(Checked(s, junkTop, junk), peak) && Silent(s, Checked(s, junkTop, junk))
  {
    CallGoesOn(s, peak);
    var s1 := Apply(s, Check(0));
    SilentKeeps(s, Check(0), peak);
    if s1.pcs[0].AllocDrop? {
      CallGoesOn(s1, peak);
      SilentKeeps(s1, Drop(0, junkTop, junk), peak);
      assert Apply(s1, Drop(0, junkTop, junk)).pcs == Checked(s, junkTop, junk).pcs;
    }
  }

  lemma BeginKeeps(s: State, peak: nat)
    requires Sound(s, peak) && s.pcs[0].Idle? && s.tls[0] == Some(0)
    ensures Enabled(s, AllocBegin(0)) && Sound(DoAllocBegin(s, 0), peak) && Silent(s, DoAllocBegin(s, 0))
  {
    SilentKeeps(s, AllocBegin(0), peak);
  }

  lemma PopKeeps(s: State, peak: nat)
    requires Sound(s, peak) && (s.pcs[0] == AllocPop(0) || s.pcs[0] == AllocLast(0))
    ensures CanPop(s, 0) && Sound(DoPop(s, 0), peak) && Silent(s, DoPop(s, 0))
    ensures LocalEmpty(s.contexts[0].value) ==> DoPop(s, 0).pcs[0] == AllocScan(0, 0)
    ensures !LocalEmpty(s.contexts[0].value) ==> DoPop(s, 0).pcs[0] == Got(s.contexts[0].value.localTop)
  {
    CallGoesOn(s, peak);
    SilentKeeps(s, Pop(0), peak);
    assert PcOk(s, 0);
    if s.pcs[0].AllocLast? { AS.TopOfChain(s, 0); }
  }

  lemma ScanKeeps(s: State, peak: nat)
    requires Sound(s, peak) && s.pcs[0].AllocScan?
    ensures s.pcs[0].c == 0 && CanScan(s, 0, s.pcs[0].k)
    ensures Sound(DoScan(s, 0), peak) && Silent(s, DoScan(s, 0))
  {
    CallGoesOn(s, peak);
    SilentKeeps(s, Scan(0), peak);
  }

  lemma StealKeeps(s: State, peak: nat)
    requires Sound(s, peak) && s.pcs[0].AllocSteal?
    ensures s.pcs[0].c == 0 && HasOwned(s, 0, s.pcs[0].k)
    ensures var a := s.contexts[0].value.owned[s.pcs[0].k]; s.arenas[a].top.lo != Sentinel(a)
    ensures Sound(DoSteal(s, 0), peak) && Silent(s, DoSteal(s, 0)) && DoSteal(s, 0).pcs[0] == AllocLast(0)
  {
    CallGoesOn(s, peak);
    SilentKeeps(s, Steal(0), peak);
    assert PcOk(s, 0);
    AS.SentinelMeansEmpty(s, 0, s.pcs[0].k);
  }

  /** The state after `init_arena`. */
  function Grew(s: State): State
    requires AtPc(s, 0) && s.pcs[0] == AllocGrow(0) && CanGrow(s, 0) && SizeOk(s)
  {
    var m := DoGrow(s, 0);
    if m.pcs[0].AllocSetup? then DoSetup(m, 0) else m
  }

  lemma GrowIsReady(s: State, peak: nat)
    requires Sound(s, peak) && s.pcs[0] == AllocGrow(0)
    ensures CanGrow(s, 0) && s.contexts[0].value.active <= |s.contexts[0].value.owned| && |s.takers| !in s.arenas
  {
    CallGoesOn(s, peak);
    assert ContextOk(s, 0, s.contexts[0].value);
    assert |s.takers| in s.arenas ==> ArenaOk(s, |s.takers|);
  }

  lemma GrowKeeps(s: State, peak: nat)
    requires Sound(s, peak) && s.pcs[0] == AllocGrow(0) && CanGrow(s, 0)
    ensures Sound(Grew(s), peak) && Silent(s, Grew(s))
    ensures Grew(s).pcs[0] == AllocLast(0) || (Grew(s).pcs[0] == Idle && |s.takers| >= MAX_ARENAS)
  {
    SilentKeeps(s, Grow(0), peak);
    var m := DoGrow(s, 0);
    if m.pcs[0].AllocSetup? {
      CallGoesOn(m, peak);
      SilentKeeps(m, Setup(0), peak);
      SilentTrans(s, m, DoSetup(m, 0));
    }
  }

  // The whole calls, as functions of the state they begin in.

  predicate Single(s: State) {
    SizeOk(s) && |s.pcs| == |s.tls| == |s.contexts| == 1 && s.contexts[0].Some?
  }

  predicate BeginReady(s: State) {
    Single(s) && s.tls[0] == Some(0) && (s.contexts[0].value.active > 0 ==> HasLast(s, 0))
  }

  /** After counting the allocation and the periodic check. */
  function Began(s: State, junkTop: Word, junk: seq<U32>): State
    requires BeginReady(s)
  {
    var s1 := DoAllocBegin(s, 0);
    if s1.pcs[0].AllocCheck? then Checked(s1, junkTop, junk) else s1
  }

  /** After counting the allocation. */
  function Counted(s: State): State
    requires |s.contexts| == 1 && s.contexts[0].Some?
  {
    var ctx := s.contexts[0].value;
    s.(contexts := [Some(ctx.(count := ctx.count + 1))])
  }

  lemma BeganIsCounted(s: State, junkTop: Word, junk: seq<U32>)
    requires BeginReady(s)
    ensures var m := Counted(s); var ctx := m.contexts[0].value;
      && (ctx.active > 0 ==> HasLast(m, 0))
      && Began(s, junkTop, junk) ==
           if ctx.count % s.size == 0 && ctx.active > 0 && IsFull(m, m.arenas[Last(m, 0)].top)
           then DoDrop(m, 0, 0, junkTop, junk, AllocPop(0)) else m.(pcs := [AllocPop(0)])
  {
    var m, s1 := Counted(s), DoAllocBegin(s, 0);
    assert s1.contexts == m.contexts;
  }

  predicate ScanReady(s: State) {
    && Single(s) && s.pcs[0].AllocScan? && s.pcs[0].c == 0
    && forall i {:trigger HasOwned(s, 0, i)} :: 0 <= i < s.contexts[0].value.active ==> HasOwned(s, 0, i)
  }

  /** After the search through the active arenas. */
  function Scanned(s: State): (r: State)
    requires ScanReady(s)
    ensures Single(r) && r.takers == s.takers
    decreases s.contexts[0].value.active - s.pcs[0].k
  {
    var k, active := s.pcs[0].k, s.contexts[0].value.active;
    assert k < active ==> HasOwned(s, 0, k);
    var s1 := DoScan(s, 0);
    if k >= active then s1
    else if s1.pcs[0].AllocSteal? then
      DoSteal(s1, 0)
    else
      assert forall i :: 0 <= i < active ==> HasOwned(s, 0, i) ==> HasOwned(s1, 0, i);
      Scanned(s1)
  }

  lemma ScanGoesOn(s: State)
    requires ScanReady(s) && s.pcs[0].k < s.contexts[0].value.active
    ensures HasOwned(s, 0, s.pcs[0].k)
    ensures var s1 := DoScan(s, 0);
      if s1.pcs[0].AllocSteal? then Scanned(s) == DoSteal(s1, 0)
      else ScanReady(s1) && s1.pcs[0].k == s.pcs[0].k + 1 && Scanned(s1) == Scanned(s)
  {
    assert HasOwned(s, 0, s.pcs[0].k);
    var s1 := DoScan(s, 0);
    assert forall i :: 0 <= i < s.contexts[0].value.active ==> HasOwned(s, 0, i) ==> HasOwned(s1, 0, i);
  }

  predicate GrowReady(s: State) {
    && Single(s) && s.pcs[0] == AllocGrow(0) && CanGrow(s, 0)
    && s.contexts[0].value.active <= |s.contexts[0].value.owned| && |s.takers| !in s.arenas
  }

  /** The local chain has a slot to take. */
  predicate TakeReady(s: State) {
    Single(s) && s.pcs[0] == AllocLast(0) && CanPop(s, 0) && !LocalEmpty(s.contexts[0].value)
  }

  /** Takes a slot from the local chain and returns it. */
  function Taken(s: State): State
    requires Single(s) && (s.pcs[0] == AllocPop(0) || s.pcs[0] == AllocLast(0)) && CanPop(s, 0)
    requires !LocalEmpty(s.contexts[0].value)
  {
    DoDeliver(DoPop(s, 0), 0)
  }

  predicate RefillReady(s: State) {
    && ScanReady(s)
    && var s1 := Scanned(s);
      && (s1.pcs[0].AllocGrow? ==> GrowReady(s1))
      && (!s1.pcs[0].AllocGrow? ==> TakeReady(s1))
      && (s1.pcs[0].AllocGrow? && !Grew(s1).pcs[0].Idle? ==> TakeReady(Grew(s1)))
  }

  /** The state in which a refilled call takes its slot, or has failed. */
  function BeforeTake(s: State): State
    requires RefillReady(s)
  {
    var s1 := Scanned(s);
    if s1.pcs[0].AllocGrow? then Grew(s1) else s1
  }

  /** After the local chain was found empty: a slot of a batch or of a new arena. */
  function Refilled(s: State): State
    requires RefillReady(s)
  {
    var s1 := BeforeTake(s);
    if s1.pcs[0].Idle? then s1 else Taken(s1)
  }

  predicate AllocReady(s: State, junkTop: Word, junk: seq<U32>) {
    && BeginReady(s)
    && var s1 := Began(s, junkTop, junk);
      && Single(s1) && s1.pcs[0] == AllocPop(0) && CanPop(s1, 0)
      && (LocalEmpty(s1.contexts[0].value) ==> RefillReady(DoPop(s1, 0)))
  }

  function Alloced(s: State, junkTop: Word, junk: seq<U32>): State
    requires AllocReady(s, junkTop, junk)
  {
    var s1 := Began(s, junkTop, junk);
    if LocalEmpty(s1.contexts[0].value) then Refilled(DoPop(s1, 0)) else Taken(s1)
  }

  lemma BeganKeeps(s: State, peak: nat, junkTop: Word, junk: seq<U32>)
    requires Sound(s, peak) && s.pcs[0].Idle? && s.tls[0] == Some(0) && |junk| == s.size
    ensures BeginReady(s) && Sound(Began(s, junkTop, junk), peak) && Silent(s, Began(s, junkTop, junk))
    ensures Began(s, junkTop, junk).pcs[0] == AllocPop(0)
  {
    BeginKeeps(s, peak);
    if s.contexts[0].value.active > 0 { AS.HasLastOk(s, 0); }
    var s1 := DoAllocBegin(s, 0);
    if s1.pcs[0].AllocCheck? {
      CheckKeeps(s1, peak, junkTop, junk);
      SilentTrans(s, s1, Checked(s1, junkTop, junk));
    }
  }

  lemma ScanIsReady(s: State, peak: nat)
    requires Sound(s, peak) && s.pcs[0].AllocScan?
    ensures ScanReady(s)
  {
    CallGoesOn(s, peak);
    assert ContextOk(s, 0, s.contexts[0].value);
    forall i | 0 <= i < s.contexts[0].value.active ensures HasOwned(s, 0, i) {
      AS.OwnedArena(s, 0, i);
    }
  }

  lemma {:induction false} ScannedKeeps(s: State, peak: nat)
    requires Sound(s, peak) && s.pcs[0].AllocScan? && ScanReady(s)
    ensures Sound(Scanned(s), peak) && Silent(s, Scanned(s))
    ensures Scanned(s).pcs[0] == AllocLast(0) || Scanned(s).pcs[0] == AllocGrow(0)
    decreases s.contexts[0].value.active - s.pcs[0].k
  {
    ScanKeeps(s, peak);
    var s1 := DoScan(s, 0);
    if s1.pcs[0].AllocSteal? {
      StealKeeps(s1, peak);
      SilentTrans(s, s1, DoSteal(s1, 0));
    } else if s1.pcs[0].AllocScan? {
      ScanIsReady(s1, peak);
      ScannedKeeps(s1, peak);
      SilentTrans(s, s1, Scanned(s1));
    }
  }

  /** The call has returned slot `h`: it was free and is allocated, and the peak follows. */
  ghost predicate Returned(s: State, s': State, peak: nat, h: U32) {
    && s'.tls == s.tls && |s'.pcs| == 1 && s'.pcs[0].Idle?
    && h != HANDLE_NULL && HandsOut(s, s', h) && |Busy(s', 0)| == |Busy(s, 0)| + 1
    && Sound(s', Max(peak, |Busy(s', 0)|))
  }

  lemma ReturnedAfter(s: State, s1: State, s2: State, peak: nat, h: U32)
    requires Silent(s, s1) && Returned(s1, s2, peak, h)
    ensures Returned(s, s2, peak, h)
  {
  }

  lemma TakenKeeps(s: State, peak: nat)
    requires Sound(s, peak) && (s.pcs[0] == AllocPop(0) || s.pcs[0] == AllocLast(0)) && !LocalEmpty(s.contexts[0].value)
    ensures CanPop(s, 0) && Returned(s, Taken(s), peak, s.contexts[0].value.localTop)
  {
    PopKeeps(s, peak);
    var s1 := DoPop(s, 0);
    DeliverKeeps(s1, peak);
    ReturnedAfter(s, s1, DoDeliver(s1, 0), peak, s.contexts[0].value.localTop);
  }

  lemma TakeIsReady(s: State, peak: nat)
    requires Sound(s, peak) && s.pcs[0] == AllocLast(0)
    ensures TakeReady(s)
  {
    PopKeeps(s, peak);
    assert PcOk(s, 0);
    AS.TopOfChain(s, 0);
  }

  /** The call found no slot and no arena index is left. */
  ghost predicate Exhausted(s: State, s': State, peak: nat) {
    Silent(s, s') && |s'.pcs| == 1 && s'.pcs[0].Idle? && Sound(s', peak) && |s.takers| >= MAX_ARENAS
  }

  lemma RefillKeeps(s: State, peak: nat)
    requires Sound(s, peak) && s.pcs[0].AllocScan?
    ensures RefillReady(s) && Sound(BeforeTake(s), peak) && Silent(s, BeforeTake(s))
    ensures BeforeTake(s).pcs[0] == AllocLast(0) || (BeforeTake(s).pcs[0] == Idle && |s.takers| >= MAX_ARENAS)
  {
    ScanIsReady(s, peak);
    ScannedKeeps(s, peak);
    var s1 := Scanned(s);
    if s1.pcs[0].AllocGrow? {
      GrowIsReady(s1, peak);
      GrowKeeps(s1, peak);
      SilentTrans(s, s1, Grew(s1));
      if !Grew(s1).pcs[0].Idle? { TakeIsReady(Grew(s1), peak); }
    } else {
      TakeIsReady(s1, peak);
    }
  }

  /** The handle that the call returns. */
  function Handed(s: State, junkTop: Word, junk: seq<U32>): U32
    requires AllocReady(s, junkTop, junk)
  {
    var s1 := Began(s, junkTop, junk);
    if !LocalEmpty(s1.contexts[0].value) then s1.contexts[0].value.localTop
    else
      var s2 := BeforeTake(DoPop(s1, 0));
      if s2.pcs[0].Idle? then HANDLE_NULL else s2.contexts[0].value.localTop
  }

  lemma RefilledKeeps(s: State, peak: nat)
    requires Sound(s, peak) && s.pcs[0].AllocScan?
    ensures RefillReady(s)
    ensures var s1 := BeforeTake(s);
      if s1.pcs[0].Idle? then Exhausted(s, Refilled(s), peak)
      else Returned(s, Refilled(s), peak, s1.contexts[0].value.localTop)
  {
    RefillKeeps(s, peak);
    var s1 := BeforeTake(s);
    if !s1.pcs[0].Idle? {
      TakeIsReady(s1, peak);
      TakenKeeps(s1, peak);
      ReturnedAfter(s, s1, Taken(s1), peak, s1.contexts[0].value.localTop);
    }
  }

  lemma ExhaustedAfter(s: State, s1: State, s2: State, peak: nat)
    requires Silent(s, s1) && s1.takers == s.takers && Exhausted(s1, s2, peak)
    ensures Exhausted(s, s2, peak)
  {
    SilentTrans(s, s1, s2);
  }

  // free_slot.

  predicate FreeReady(s: State, h: U32) {
    Single(s) && HasSlot(s, h) && WordAt(s, h) == h
  }

  /** Slot `h` is being pushed, its word is `w` and the call is at `pc`. */
  function InFlight(s: State, h: U32, w: U32, pc: Pc): State
    requires FreeReady(s, h)
  {
    s.(arenas := s.arenas[ArenaOf(h) := PutSlot(s.arenas[ArenaOf(h)], SlotOf(h), Pushing(0), w)], pcs := [pc])
  }

  /** Slot `h` is on top of the shared stack of its arena, one deeper than before. */
  function Freed(s: State, h: U32): State
    requires FreeReady(s, h)
  {
    var arena, j := s.arenas[ArenaOf(h)], SlotOf(h);
    s.(arenas := s.arenas[ArenaOf(h) := arena.(top := Word(Wrap(arena.top.hi + 1), h),
                                              words := arena.words[j := arena.top.lo],
                                              stack := arena.stack + [j],
                                              locs := arena.locs[j := OnStack(|arena.stack|)])],
       pcs := [Idle])
  }

  /** The steps of a push that nobody else disturbs; a spurious failure leads back to the link store. */
  lemma PushSteps(s: State, h: U32, w: U32)
    requires FreeReady(s, h)
    ensures var top := s.arenas[ArenaOf(h)].top;
      && DoPushBegin(s, 0, h) == InFlight(s, h, h, PushLoad(h))
      && DoLoadTop(InFlight(s, h, w, PushLoad(h)), 0) == InFlight(s, h, w, PushLink(h, top))
      && DoStoreLink(InFlight(s, h, w, PushLink(h, top)), 0) == InFlight(s, h, top.lo, PushTry(h, top))
      && DoTryPush(InFlight(s, h, top.lo, PushTry(h, top)), 0, true) == InFlight(s, h, top.lo, PushLink(h, top))
      && DoTryPush(InFlight(s, h, top.lo, PushTry(h, top)), 0, false) == Freed(s, h)
  {
    var top := s.arenas[ArenaOf(h)].top;
    assert s.pcs[0 := PushLoad(h)] == [PushLoad(h)];
    var a, j := s.arenas[ArenaOf(h)], SlotOf(h);
    assert a.words[j := w][j := top.lo] == a.words[j := top.lo];
    assert a.locs[j := Pushing(0)][j := Pushing(0)] == a.locs[j := Pushing(0)];
    assert a.locs[j := Pushing(0)][j := OnStack(|a.stack|)] == a.locs[j := OnStack(|a.stack|)];
  }

  lemma PushedKeeps(s: State, h: U32, peak: nat)
    requires FreeReady(s, h) && Sound(InFlight(s, h, h, PushLoad(h)), peak)
    ensures Sound(Freed(s, h), peak) && Silent(InFlight(s, h, h, PushLoad(h)), Freed(s, h))
  {
    var top := s.arenas[ArenaOf(h)].top;
    PushSteps(s, h, h);
    var s1 := InFlight(s, h, h, PushLoad(h));
    var s2 := InFlight(s, h, h, PushLink(h, top));
    var s3 := InFlight(s, h, top.lo, PushTry(h, top));
    SilentKeeps(s1, LoadTop(0), peak);
    SilentKeeps(s2, StoreLink(0), peak);
    SilentKeeps(s3, TryPush(0, false), peak);
    SilentTrans(s1, s2, s3);
    SilentTrans(s1, s3, Freed(s, h));
  }

  // tls_destructor.

  predicate ExitReady(s: State) {
    Single(s) && |s.used| == |s.owners| == 1 &&
    forall i {:trigger HasOwned(s, 0, i)} :: 0 <= i < s.contexts[0].value.active ==> HasOwned(s, 0, i)
  }

  /** The last active arena exists and is fully free. */
  predicate LastEmpty(s: State)
    requires ExitReady(s)
  {
    s.contexts[0].value.active > 0 &&
    (assert HasOwned(s, 0, s.contexts[0].value.active - 1); IsFull(s, s.arenas[Last(s, 0)].top))
  }

  /** After the loop that gives back fully free arenas from the end. */
  function Dropped(s: State, junkTop: nat -> Word, junk: nat -> seq<U32>): (r: State)
    requires ExitReady(s)
    ensures ExitReady(r) && !LastEmpty(r)
    decreases s.contexts[0].value.active
  {
    if !LastEmpty(s) then s
    else
      var n := s.contexts[0].value.active;
      assert HasOwned(s, 0, n - 1);
      var s1 := DoDrop(s, 0, 0, junkTop(n), junk(n), ExitCheck(0));
      assert forall i :: 0 <= i < n - 1 ==> HasOwned(s, 0, i) ==> HasOwned(s1, 0, i);
      Dropped(s1, junkTop, junk)
  }

  lemma ExitStays(s: State, s1: State)
    requires ExitReady(s) && Single(s1) && |s1.used| == |s1.owners| == 1 && s1.arenas == s.arenas
    requires s1.contexts == s.contexts
    ensures ExitReady(s1)
  {
    assert forall i :: 0 <= i < s.contexts[0].value.active ==> HasOwned(s, 0, i) ==> HasOwned(s1, 0, i);
  }

  lemma LastIsThere(s: State)
    requires ExitReady(s)
    ensures s.contexts[0].value.active > 0 ==> HasLast(s, 0)
  {
    assert s.contexts[0].value.active > 0 ==> HasOwned(s, 0, s.contexts[0].value.active - 1);
  }

  lemma DropGoesOn(s: State, junkTop: nat -> Word, junk: nat -> seq<U32>)
    requires ExitReady(s) && LastEmpty(s)
    ensures HasLast(s, 0)
    ensures var n := s.contexts[0].value.active; var s1 := DoDrop(s, 0, 0, junkTop(n), junk(n), ExitCheck(0));
      ExitReady(s1) && Dropped(s1, junkTop, junk) == Dropped(s, junkTop, junk)
  {
    LastIsThere(s);
    var n := s.contexts[0].value.active;
    var s1 := DoDrop(s, 0, 0, junkTop(n), junk(n), ExitCheck(0));
    assert forall i :: 0 <= i < n - 1 ==> HasOwned(s, 0, i) ==> HasOwned(s1, 0, i);
  }

  /** After the whole of `tls_destructor`. */
  function Exited(s: State, junkTop: nat -> Word, junk: nat -> seq<U32>): State
    requires ExitReady(s) && s.tls[0] == Some(0)
  {
    var s1 := DoExit(s, 0);
    ExitStays(s, s1);
    DoStoreTid(Goto(Dropped(s1, junkTop, junk), 0, ExitStore(0)), 0)
  }

  lemma ExitIsReady(s: State, peak: nat)
    requires Sound(s, peak)
    ensures ExitReady(s)
  {
    assert ContextOk(s, 0, s.contexts[0].value);
    forall i | 0 <= i < s.contexts[0].value.active ensures HasOwned(s, 0, i) {
      AS.OwnedArena(s, 0, i);
    }
  }

  lemma ExitCheckKeeps(s: State, peak: nat)
    requires Sound(s, peak) && s.pcs[0] == ExitCheck(0) && ExitReady(s)
    ensures var m := Goto(s, 0, if LastEmpty(s) then ExitDrop(0) else ExitStore(0));
      Sound(m, peak) && Silent(s, m)
  {
    CallGoesOn(s, peak);
    SilentKeeps(s, CheckOnExit(0), peak);
  }

  lemma DropOnceKeeps(s: State, peak: nat, junkTop: Word, junk: seq<U32>)
    requires Sound(s, peak) && s.pcs[0] == ExitDrop(0) && |junk| == s.size && HasLast(s, 0)
    ensures var s1 := DoDrop(s, 0, 0, junkTop, junk, ExitCheck(0)); Sound(s1, peak) && Silent(s, s1)
  {
    SilentKeeps(s, DropOnExit(0, junkTop, junk), peak);
  }

  lemma {:induction false} DroppedKeeps(s: State, peak: nat, junkTop: nat -> Word, junk: nat -> seq<U32>)
    requires Sound(s, peak) && s.pcs[0] == ExitCheck(0) && ExitReady(s) && forall n :: |junk(n)| == s.size
    ensures var r := Dropped(s, junkTop, junk); Sound(r, peak) && Silent(s, r) && r.pcs[0] == ExitCheck(0)
    decreases s.contexts[0].value.active
  {
    if LastEmpty(s) {
      var n := s.contexts[0].value.active;
      assert HasOwned(s, 0, n - 1);
      ExitCheckKeeps(s, peak);
      var m := Goto(s, 0, ExitDrop(0));
      DropOnceKeeps(m, peak, junkTop(n), junk(n));
      var s1 := DoDrop(s, 0, 0, junkTop(n), junk(n), ExitCheck(0));
      assert s1 == DoDrop(m, 0, 0, junkTop(n), junk(n), ExitCheck(0));
      SilentTrans(s, m, s1);
      ExitIsReady(s1, peak);
      DroppedKeeps(s1, peak, junkTop, junk);
      SilentTrans(s, s1, Dropped(s1, junkTop, junk));
    }
  }

  lemma StoreKeeps(s: State, peak: nat)
    requires Sound(s, peak) && s.pcs[0] == ExitCheck(0) && ExitReady(s) && !LastEmpty(s)
    ensures var r := DoStoreTid(Goto(s, 0, ExitStore(0)), 0); Sound(r, peak) && Silent(s, r)
  {
    ExitCheckKeeps(s, peak);
    var m := Goto(s, 0, ExitStore(0));
    SilentKeeps(m, StoreTid(0), peak);
    SilentTrans(s, m, DoStoreTid(m, 0));
  }

  lemma BeginExitKeeps(s: State, peak: nat)
    requires Sound(s, peak) && s.pcs[0].Idle? && s.tls[0] == Some(0)
    ensures Sound(DoExit(s, 0), peak) && SameBusy(s, DoExit(s, 0))
  {
    SilentStep(s, Exit(0));
    SilentBusy(s, Exit(0));
    AnyKeeps(s, Exit(0), peak, peak);
  }

  /** One registered thread with a new context. */
  function Started(size: nat): State {
    State(size, map[], [], [true], [Some(NewContext())], [Some(0)], [Some(0)], [Idle], false)
  }

  lemma StartedSound(size: nat)
    requires 2 <= size < SLOT_SPAN
    ensures Sound(Started(size), 0)
  {
    assert Busy(Started(size), 0) == {};
  }
}
