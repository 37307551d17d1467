module ArenaBound {
  // The arena bound: when no free into a context overlaps an allocation on it, the context never has
  // more active arenas than its peak number of simultaneously allocated slots needed.

  import opened Words
  import opened Handles
  import opened Allocator
  import opened AllocatorInvariant
  import opened AllocatorSteps
  import opened AllocatorTheorems

  /** Thread `t` is inside an allocation on context `c`. */
  predicate AllocatesOn(s: State, t: nat, c: nat) {
    AtPc(s, t) && ((IsAlloc(s.pcs[t]) && s.pcs[t].c == c) || (s.pcs[t].Got? && s.tls[t] == Some(c)))
  }

  /** Thread `u` is inside a free of a slot of context `c`. */
  predicate FreesInto(s: State, u: nat, c: nat) {
    && AtPc(s, u) && IsPush(s.pcs[u]) && ArenaOf(s.pcs[u].handle) in s.arenas
    && s.arenas[ArenaOf(s.pcs[u].handle)].owner == c
  }

  /** No free into context `c` overlaps an allocation on it; calls on other contexts may overlap as they like. */
  ghost predicate NoOverlap(s: State, c: nat) {
    forall t: nat, u: nat :: AllocatesOn(s, t, c) ==> !FreesInto(s, u, c)
  }

  /** The allocated slots of context `c`, as (position of the arena, slot) pairs. */
  function Busy(s: State, c: nat): set<(nat, nat)> {
    if !HasContext(s, c) then {} else
    var owned := s.contexts[c].value.owned;
    set i: nat, j: nat | i < |owned| && j < s.size && IsBusy(s, owned[i], j) :: (i, j)
  }

  predicate IsBusy(s: State, a: nat, j: nat) {
    a in s.arenas && 0 < j < |s.arenas[a].locs| && s.arenas[a].locs[j].Allocated?
  }

  /** The most slots of context `c` that were allocated at once in states 0 to `k` of a run. */
  function Peak(states: seq<State>, k: nat, c: nat): nat
    requires k < |states|
  {
    var now := |Busy(states[k], c)|;
    if k == 0 then now else if Peak(states, k - 1, c) < now then now else Peak(states, k - 1, c)
  }

  /** The slots of `rows` arenas. */
  function Capacity(rows: nat, size: nat): nat
    requires size > 0
  {
    if rows == 0 then 0 else Capacity(rows - 1, size) + (size - 1)
  }

  lemma {:induction false} CapacityIsProduct(rows: nat, size: nat)
    requires size > 0
    ensures Capacity(rows, size) == rows * (size - 1)
  {
    if rows > 0 { CapacityIsProduct(rows - 1, size); }
  }

  function Active(s: State, c: nat): nat {
    if HasContext(s, c) then s.contexts[c].value.active else 0
  }

  predicate Bounded(s: State, c: nat, peak: nat)
    requires s.size > 0
  {
    Active(s, c) > 0 ==> Capacity(Active(s, c) - 1, s.size) < peak
  }

  /** Every slot of the first `rows` arenas of context `c` is allocated. */
  predicate RowsBusy(s: State, c: nat, rows: nat)
    requires HasContext(s, c) && rows <= |s.contexts[c].value.owned|
  {
    forall i, j :: 0 <= i < rows && 0 < j < s.size ==> IsBusy(s, s.contexts[c].value.owned[i], j)
  }

  predicate ScannedEmpty(s: State, c: nat, k: nat)
    requires HasContext(s, c) && k <= |s.contexts[c].value.owned|
  {
    forall i {:trigger s.contexts[c].value.owned[i]} :: 0 <= i < k ==>
      s.contexts[c].value.owned[i] in s.arenas && s.arenas[s.contexts[c].value.owned[i]].stack == []
  }

  /** What the scan of the arenas has established. */
  predicate ScanOk(s: State, t: nat)
    requires t < |s.pcs|
  {
    match s.pcs[t]
    case AllocScan(c, k) =>
      HasContext(s, c) && k <= Active(s, c) <= |s.contexts[c].value.owned| && ScannedEmpty(s, c, k)
    case AllocGrow(c) =>
      HasContext(s, c) && Active(s, c) <= |s.contexts[c].value.owned| && ScannedEmpty(s, c, Active(s, c))
    case AllocSetup(c, _) =>
      HasContext(s, c) && Active(s, c) <= |s.contexts[c].value.owned| && ScannedEmpty(s, c, Active(s, c))
    case _ => true
  }

  /** Thread `t` has just set up the last arena of context `c`, all others being in full use, and
      has not yet returned the first slot of it. */
  predicate Opening(s: State, c: nat, t: nat) {
    && t < |s.pcs| && HasLast(s, c) && RowsBusy(s, c, Active(s, c) - 1)
    && match s.pcs[t]
       case AllocLast(d) => d == c && s.contexts[c].value.home == Last(s, c)
       case Got(h) => ArenaOf(h) == Last(s, c)
       case _ => false
  }

  predicate IsScan(pc: Pc) {
    pc.AllocScan? || pc.AllocGrow? || pc.AllocSetup?
  }

  /** A slot in the hands of an allocating thread is of that thread's context. */
  predicate HandOk(s: State, t: nat)
    requires t < |s.pcs|
  {
    s.pcs[t].Got? ==>
      && t < |s.tls| && ArenaOf(s.pcs[t].handle) in s.arenas
      && s.tls[t] == Some(s.arenas[ArenaOf(s.pcs[t].handle)].owner)
  }

  ghost predicate SeqInv(s: State, c: nat, peak: nat)
    requires s.size > 0
  {
    && (forall t {:trigger HandOk(s, t)} :: 0 <= t < |s.pcs| ==> HandOk(s, t))
    && (forall t {:trigger ScanOk(s, t)} :: 0 <= t < |s.pcs| && IsScan(s.pcs[t]) && s.pcs[t].c == c ==> ScanOk(s, t))
    && (Bounded(s, c, peak) || exists t: nat :: Opening(s, c, t))
  }

  // Counting rows.

  function Rect(rows: nat, size: nat): set<(nat, nat)> {
    set i: nat, j: nat | i < rows && 0 < j < size :: (i, j)
  }

  function Row(i: nat, size: nat): set<(nat, nat)> {
    set j: nat | 0 < j < size :: (i, j)
  }

  lemma {:induction false} RowCount(i: nat, size: nat)
    requires size > 0
    ensures |Row(i, size)| == size - 1
  {
    if size == 1 {
      assert Row(i, size) == {};
    } else {
      RowCount(i, size - 1);
      assert Row(i, size) == Row(i, size - 1) + {(i, size - 1)};
    }
  }

  lemma {:induction false} RectCount(rows: nat, size: nat)
    requires size > 0
    ensures |Rect(rows, size)| == Capacity(rows, size)
  {
    if rows == 0 {
      assert Rect(rows, size) == {};
    } else {
      RectCount(rows - 1, size);
      RowCount(rows - 1, size);
      assert Rect(rows, size) == Rect(rows - 1, size) + Row(rows - 1, size);
      assert Rect(rows - 1, size) !! Row(rows - 1, size);
    }
  }

  /** Full rows and one more allocated slot are more slots than the full rows have. */
  lemma OneMore(s: State, c: nat, rows: nat, j: nat)
    requires s.size > 0 && HasContext(s, c) && rows < |s.contexts[c].value.owned| && RowsBusy(s, c, rows)
    requires j < s.size && IsBusy(s, s.contexts[c].value.owned[rows], j)
    ensures |Busy(s, c)| > Capacity(rows, s.size)
  {
    RectCount(rows, s.size);
    assert Rect(rows, s.size) + {(rows, j)} <= Busy(s, c);
    assert |Rect(rows, s.size) + {(rows, j)}| == Capacity(rows, s.size) + 1;
    SubsetCount(Rect(rows, s.size) + {(rows, j)}, Busy(s, c));
  }

  lemma {:induction false} CapacityGrows(m: nat, n: nat, size: nat)
    requires size > 0 && m <= n
    ensures Capacity(m, size) <= Capacity(n, size)
    decreases n
  {
    if m < n { CapacityGrows(m, n - 1, size); }
  }

  /** A slot of an arena whose stack is empty, in a context that an allocation found drained, is allocated. */
  lemma SlotAllocated(s: State, t: nat, a: nat, j: nat)
    requires a in s.arenas && ArenaOk(s, a) && 0 < j < s.size
    requires var arena := s.arenas[a]; var ctx := s.contexts[arena.owner].value;
      arena.stack == [] && arena.pos < ctx.active && ctx.chain == []
    requires forall u :: 0 <= u < |s.pcs| && (s.pcs[u].Got? || IsPush(s.pcs[u])) ==> ArenaOf(s.pcs[u].handle) != a
    ensures IsBusy(s, a, j)
  {
    assert SlotOk(s, a, s.arenas[a], s.contexts[s.arenas[a].owner].value, j);
  }

  /** While a thread allocates on context `c` and has no slot in hand, nobody has a slot of it in flight. */
  lemma NoneInFlight(s: State, t: nat, c: nat, u: nat, a: nat)
    requires Inv(s) && NoOverlap(s, c) && AtPc(s, t) && IsAlloc(s.pcs[t]) && s.pcs[t].c == c
    requires AtPc(s, u) && HandOk(s, u) && (s.pcs[u].Got? || IsPush(s.pcs[u])) && a in s.arenas
    requires s.arenas[a].owner == c
    ensures ArenaOf(s.pcs[u].handle) != a
  {
    assert AllocatesOn(s, t, c);
    if s.pcs[u].Got? && ArenaOf(s.pcs[u].handle) == a {
      SingleOwner(s, t, u, c);
    }
    assert !FreesInto(s, u, c);
  }

  /** When the scan has found every stack empty and the local chain is empty, every slot is allocated. */
  lemma AllAllocated(s: State, t: nat, c: nat)
    requires Inv(s) && NoOverlap(s, c) && AtPc(s, t) && IsAlloc(s.pcs[t]) && s.pcs[t].c == c
    requires forall u {:trigger HandOk(s, u)} :: 0 <= u < |s.pcs| ==> HandOk(s, u)
    requires HasContext(s, c) && Drained(s, c)
    requires Active(s, c) <= |s.contexts[c].value.owned| && ScannedEmpty(s, c, Active(s, c))
    ensures RowsBusy(s, c, Active(s, c))
  {
    var ctx := s.contexts[c].value;
    forall i, j | 0 <= i < ctx.active && 0 < j < s.size ensures IsBusy(s, ctx.owned[i], j) {
      OwnedArena(s, c, i);
      var a := ctx.owned[i];
      forall u | 0 <= u < |s.pcs| && (s.pcs[u].Got? || IsPush(s.pcs[u])) ensures ArenaOf(s.pcs[u].handle) != a {
        assert HandOk(s, u);
        NoneInFlight(s, t, c, u, a);
      }
      SlotAllocated(s, t, a, j);
    }
  }

  // Steps of the thread that uses the context.

  lemma ScanStep(s: State, e: Event)
    requires Inv(s) && Enabled(s, e) && ScanOk(s, e.t) && e.Scan?
    ensures e.t < |Apply(s, e).pcs| && ScanOk(Apply(s, e), e.t)
  {
    var AllocScan(c, k) := s.pcs[e.t];
    assert ContextOk(s, c, s.contexts[c].value);
    if k < Active(s, c) { SentinelMeansEmpty(s, c, k); }
  }

  lemma ScanComesFrom(s: State, e: Event)
    requires Enabled(s, e) && !e.Scan? && !e.Pop? && !e.Grow?
    ensures e.t < |Apply(s, e).pcs| && !IsScan(Apply(s, e).pcs[e.t])
  {
  }

  lemma ScanKept(s: State, e: Event, c: nat)
    requires Inv(s) && Enabled(s, e) && (IsScan(s.pcs[e.t]) && s.pcs[e.t].c == c ==> ScanOk(s, e.t))
    ensures e.t < |Apply(s, e).pcs|
    ensures var pc := Apply(s, e).pcs[e.t]; IsScan(pc) && pc.c == c ==> ScanOk(Apply(s, e), e.t)
  {
    if e.Scan? {
      if s.pcs[e.t].c == c { ScanStep(s, e); }
    } else if e.Pop? {
      assert ContextOk(s, s.pcs[e.t].c, s.contexts[s.pcs[e.t].c].value);
    } else if !e.Grow? {
      ScanComesFrom(s, e);
    }
  }

  /** The steps that set up an arena for context `c`. */
  predicate SetsUp(s: State, e: Event, c: nat)
    requires Enabled(s, e)
  {
    || (e.Setup? && s.pcs[e.t].c == c)
    || (e.Grow? && s.pcs[e.t].c == c && Active(s, c) < |s.contexts[c].value.owned|)
  }

  lemma ActiveShrinks(s: State, e: Event, c: nat)
    requires Enabled(s, e) && !SetsUp(s, e, c)
    ensures Active(Apply(s, e), c) <= Active(s, c) && Apply(s, e).size == s.size
  {
  }

  lemma SetupOpens(s: State, e: Event, c: nat)
    requires Inv(s) && Enabled(s, e) && NoOverlap(s, c) && ScanOk(s, e.t) && SetsUp(s, e, c)
    requires forall u {:trigger HandOk(s, u)} :: 0 <= u < |s.pcs| ==> HandOk(s, u)
    ensures Opening(Apply(s, e), c, e.t)
  {
    var t, s' := e.t, Apply(s, e);
    var ctx, ctx' := s.contexts[c].value, s'.contexts[c].value;
    assert PcOk(s, t) && ContextOk(s, c, ctx);
    AllAllocated(s, t, c);
    forall i, j | 0 <= i < ctx.active && 0 < j < s.size ensures IsBusy(s', ctx'.owned[i], j) {
      assert IsBusy(s, ctx.owned[i], j);
      OwnedArena(s, c, i);
      if e.Grow? { OwnedArena(s, c, ctx.active); }
    }
  }

  lemma PopStaysOpen(s: State, t: nat, c: nat)
    requires Inv(s) && Enabled(s, Pop(t)) && Opening(s, c, t)
    ensures Opening(Apply(s, Pop(t)), c, t)
  {
    var s' := Apply(s, Pop(t));
    var ctx := s.contexts[c].value;
    assert PcOk(s, t);
    TopOfChain(s, c);
    forall i, j | 0 <= i < ctx.active - 1 && 0 < j < s.size ensures IsBusy(s', ctx.owned[i], j) {
      assert IsBusy(s, ctx.owned[i], j);
    }
  }

  /** Returning the first slot of the new arena puts more slots in use than the other arenas have. */
  lemma DeliverCloses(s: State, t: nat, c: nat)
    requires Inv(s) && Enabled(s, Deliver(t)) && Opening(s, c, t)
    ensures Active(Apply(s, Deliver(t)), c) == Active(s, c) > 0
    ensures |Busy(Apply(s, Deliver(t)), c)| > Capacity(Active(s, c) - 1, s.size)
  {
    var s' := Apply(s, Deliver(t));
    var ctx := s.contexts[c].value;
    assert PcOk(s, t);
    forall i, j | 0 <= i < ctx.active - 1 && 0 < j < s.size ensures IsBusy(s', ctx.owned[i], j) {
      assert IsBusy(s, ctx.owned[i], j);
    }
    var h := s.pcs[t].handle;
    assert ArenaOk(s, ArenaOf(h));
    assert IsBusy(s', ArenaOf(h), SlotOf(h));
    OneMore(s', c, ctx.active - 1, SlotOf(h));
  }

  /** The thread that has opened an arena of context `c` uses the context. */
  lemma OpenerUses(s: State, c: nat, u: nat)
    requires Inv(s) && Opening(s, c, u) && HandOk(s, u)
    ensures UsesContext(s, u, c) && AllocatesOn(s, u, c)
  {
    OwnedArena(s, c, Active(s, c) - 1);
  }

  lemma OpeningSteps(s: State, e: Event, c: nat, u: nat)
    requires Inv(s) && Enabled(s, e) && UsesContext(s, e.t, c) && Opening(s, c, u) && HandOk(s, u)
    ensures e == Pop(u) || e == Deliver(u)
  {
    OpenerUses(s, c, u);
    SingleOwner(s, u, e.t, c);
  }

  lemma ShrinkKeeps(s: State, e: Event, c: nat, peak: nat, peak': nat)
    requires Enabled(s, e) && !SetsUp(s, e, c) && s.size > 0 && Bounded(s, c, peak) && peak <= peak'
    ensures Apply(s, e).size > 0 && Bounded(Apply(s, e), c, peak')
  {
    ActiveShrinks(s, e, c);
    if Active(Apply(s, e), c) > 0 { CapacityGrows(Active(Apply(s, e), c) - 1, Active(s, c) - 1, s.size); }
  }

  lemma OpenKeeps(s: State, e: Event, c: nat, u: nat, peak': nat)
    requires Inv(s) && Enabled(s, e) && UsesContext(s, e.t, c) && Opening(s, c, u) && HandOk(s, u)
    requires |Busy(Apply(s, e), c)| <= peak'
    ensures Apply(s, e).size > 0 && (Bounded(Apply(s, e), c, peak') || Opening(Apply(s, e), c, e.t))
  {
    OpeningSteps(s, e, c, u);
    if e.Pop? { PopStaysOpen(s, u, c); } else { DeliverCloses(s, u, c); }
  }

  // Steps of the other threads.

  predicate Unchanged(s: State, s': State, a: nat) {
    a in s.arenas && a in s'.arenas && s'.arenas[a] == s.arenas[a]
  }

  /** Without frees in progress into context `c`, before or after, steps of others leave its arenas alone. */
  lemma ArenasUntouched(s: State, e: Event, c: nat, a: nat)
    requires Inv(s) && Enabled(s, e) && !UsesContext(s, e.t, c) && a in s.arenas && s.arenas[a].owner == c
    requires HandOk(s, e.t) && !FreesInto(s, e.t, c) && !FreesInto(Apply(s, e), e.t, c)
    ensures Unchanged(s, Apply(s, e), a)
  {
    if TouchesOwned(e) {
      OwnerLeavesOthers(s, e, c, a);
    } else if TouchesSlot(e) {
      assert PcOk(s, e.t) && TlsOk(s, e.t);
      if e.PushBegin? { OverlaidWord(s, e.handle); }
    } else {
      OthersTouchNothing(s, e);
    }
  }

  lemma OpenUntouched(s: State, s': State, c: nat, t: nat)
    requires Inv(s) && Opening(s, c, t) && HasContext(s', c) && s'.contexts[c] == s.contexts[c] && s'.size == s.size
    requires t < |s'.pcs| && s'.pcs[t] == s.pcs[t]
    requires forall a {:trigger Unchanged(s, s', a)} :: a in s.arenas && s.arenas[a].owner == c ==> Unchanged(s, s', a)
    ensures Opening(s', c, t)
  {
    var ctx := s.contexts[c].value;
    assert ContextOk(s, c, ctx);
    forall i | 0 <= i < |ctx.owned| ensures Unchanged(s, s', ctx.owned[i]) {
      OwnedArena(s, c, i);
    }
    forall i, j | 0 <= i < ctx.active - 1 && 0 < j < s.size ensures IsBusy(s', ctx.owned[i], j) {
      assert IsBusy(s, ctx.owned[i], j);
    }
  }

  lemma ScanUntouched(s: State, s': State, c: nat, t: nat)
    requires Inv(s) && t < |s.pcs| && IsScan(s.pcs[t]) && s.pcs[t].c == c && ScanOk(s, t)
    requires HasContext(s', c) && s'.contexts[c] == s.contexts[c] && t < |s'.pcs| && s'.pcs[t] == s.pcs[t]
    requires forall a {:trigger Unchanged(s, s', a)} :: a in s.arenas && s.arenas[a].owner == c ==> Unchanged(s, s', a)
    ensures ScanOk(s', t)
  {
    var ctx := s.contexts[c].value;
    forall i | 0 <= i < |ctx.owned| ensures Unchanged(s, s', ctx.owned[i]) {
      OwnedArena(s, c, i);
    }
  }

  // Hands.

  lemma OwnersFixed(s: State, e: Event, a: nat)
    requires Inv(s) && Enabled(s, e) && a in s.arenas
    ensures a in Apply(s, e).arenas && Apply(s, e).arenas[a].owner == s.arenas[a].owner
  {
    assert PcOk(s, e.t);
    if e.Grow? && Active(s, s.pcs[e.t].c) < |s.contexts[s.pcs[e.t].c].value.owned| {
      OwnedArena(s, s.pcs[e.t].c, Active(s, s.pcs[e.t].c));
    }
  }

  lemma HandComesFrom(s: State, e: Event)
    requires Enabled(s, e) && e.t < |Apply(s, e).pcs| && Apply(s, e).pcs[e.t].Got?
    ensures e.Pop?
  {
  }

  lemma PopHand(s: State, t: nat)
    requires Inv(s) && Enabled(s, Pop(t)) && Apply(s, Pop(t)).pcs[t].Got?
    ensures HandOk(Apply(s, Pop(t)), t)
  {
    assert PcOk(s, t) && TlsOk(s, t);
    assert ContextOk(s, s.pcs[t].c, s.contexts[s.pcs[t].c].value);
    TopOfChain(s, s.pcs[t].c);
  }

  lemma HandsKept(s: State, e: Event, u: nat)
    requires Inv(s) && Enabled(s, e) && u < |s.pcs| && HandOk(s, u)
    ensures u < |Apply(s, e).pcs| && HandOk(Apply(s, e), u)
  {
    if u == e.t {
      if Apply(s, e).pcs[u].Got? {
        HandComesFrom(s, e);
        PopHand(s, u);
      }
    } else {
      OthersStay(s, e, u);
      if s.pcs[u].Got? { OwnersFixed(s, e, ArenaOf(s.pcs[u].handle)); }
    }
  }

  // Every step.

  lemma OwnStepKeeps(s: State, e: Event, c: nat, peak: nat, peak': nat)
    requires Inv(s) && Enabled(s, e) && UsesContext(s, e.t, c) && SeqInv(s, c, peak) && NoOverlap(s, c)
    requires peak <= peak' && |Busy(Apply(s, e), c)| <= peak'
    ensures Apply(s, e).size > 0 && (Bounded(Apply(s, e), c, peak') || Opening(Apply(s, e), c, e.t))
  {
    if SetsUp(s, e, c) {
      assert ScanOk(s, e.t);
      SetupOpens(s, e, c);
    } else if Bounded(s, c, peak) {
      ShrinkKeeps(s, e, c, peak, peak');
    } else {
      var u: nat :| Opening(s, c, u);
      assert HandOk(s, u);
      OpenKeeps(s, e, c, u, peak');
    }
  }

  lemma OthersStepKeeps(s: State, e: Event, c: nat, peak: nat)
    requires Inv(s) && Enabled(s, e) && !UsesContext(s, e.t, c) && SeqInv(s, c, peak)
    requires NoOverlap(s, c) && NoOverlap(Apply(s, e), c)
    ensures Apply(s, e).size > 0
    ensures Bounded(Apply(s, e), c, peak) || exists t: nat :: Opening(Apply(s, e), c, t)
  {
    OnlyOwnerChanges(s, e, c);
    if !Bounded(s, c, peak) {
      var u: nat :| Opening(s, c, u);
      assert HandOk(s, u) && HandOk(s, e.t);
      OpenerUses(s, c, u);
      AllocatorStays(s, e, c, u);
      forall a | a in s.arenas && s.arenas[a].owner == c ensures Unchanged(s, Apply(s, e), a) {
        ArenasUntouched(s, e, c, a);
      }
      OpenUntouched(s, Apply(s, e), c, u);
    }
  }

  /** A thread that allocates on `c` goes on doing so while others move, and none of them frees into `c`. */
  lemma AllocatorStays(s: State, e: Event, c: nat, u: nat)
    requires Enabled(s, e) && u != e.t && AllocatesOn(s, u, c) && NoOverlap(s, c) && NoOverlap(Apply(s, e), c)
    ensures AllocatesOn(Apply(s, e), u, c) && Apply(s, e).pcs[u] == s.pcs[u]
    ensures !FreesInto(s, e.t, c) && !FreesInto(Apply(s, e), e.t, c)
  {
    OthersStay(s, e, u);
    var s' := Apply(s, e);
    assert AllocatesOn(s', u, c);
    assert !FreesInto(s', e.t, c) && !FreesInto(s, e.t, c);
  }

  lemma OthersScanKept(s: State, e: Event, c: nat, t: nat)
    requires Inv(s) && Enabled(s, e) && t != e.t && t < |s.pcs| && HandOk(s, e.t)
    requires IsScan(s.pcs[t]) && s.pcs[t].c == c && ScanOk(s, t) && NoOverlap(s, c) && NoOverlap(Apply(s, e), c)
    ensures t < |Apply(s, e).pcs| && ScanOk(Apply(s, e), t)
  {
    assert AtPc(s, t) && PcOk(s, t);
    if UsesContext(s, e.t, c) { SingleOwner(s, t, e.t, c); }
    AllocatorStays(s, e, c, t);
    OnlyOwnerChanges(s, e, c);
    forall a | a in s.arenas && s.arenas[a].owner == c ensures Unchanged(s, Apply(s, e), a) {
      ArenasUntouched(s, e, c, a);
    }
    ScanUntouched(s, Apply(s, e), c, t);
  }

  lemma StepKeepsBound(s: State, e: Event, c: nat, peak: nat, peak': nat)
    requires Inv(s) && Enabled(s, e) && SeqInv(s, c, peak) && NoOverlap(s, c) && NoOverlap(Apply(s, e), c)
    requires peak <= peak' && |Busy(Apply(s, e), c)| <= peak'
    ensures Apply(s, e).size > 0 && SeqInv(Apply(s, e), c, peak')
  {
    var s' := Apply(s, e);
    assert HandOk(s, e.t);
    forall u | 0 <= u < |s'.pcs| ensures HandOk(s', u) {
      if u != e.t { OthersStay(s, e, u); }
      assert HandOk(s, u);
      HandsKept(s, e, u);
    }
    forall u | 0 <= u < |s'.pcs| && IsScan(s'.pcs[u]) && s'.pcs[u].c == c ensures ScanOk(s', u) {
      if u == e.t {
        ScanKept(s, e, c);
      } else {
        OthersStay(s, e, u);
        OthersScanKept(s, e, c, u);
      }
    }
    if UsesContext(s, e.t, c) {
      OwnStepKeeps(s, e, c, peak, peak');
    } else {
      OthersStepKeeps(s, e, c, peak);
    }
  }

  // Runs.

  lemma {:induction false} RunKeepsBound(states: seq<State>, events: seq<Event>, k: nat, c: nat)
    requires IsRun(states, events) && k < |states|
    requires forall j :: 0 <= j <= k ==> NoOverlap(states[j], c)
    ensures states[k].size > 0 && SeqInv(states[k], c, Peak(states, k, c))
    decreases k
  {
    RunInv(states, events, k);
    if k == 0 {
      assert Active(states[0], c) == 0;
    } else {
      RunKeepsBound(states, events, k - 1, c);
      RunInv(states, events, k - 1);
      assert NoOverlap(states[k - 1], c) && NoOverlap(states[k], c);
      StepKeepsBound(states[k - 1], events[k - 1], c, Peak(states, k - 1, c), Peak(states, k, c));
    }
  }

  lemma BetweenAllocations(s: State, c: nat, peak: nat)
    requires Inv(s) && SeqInv(s, c, peak) && Active(s, c) > 0
    requires forall t: nat :: !AllocatesOn(s, t, c)
    ensures (Active(s, c) - 1) * (s.size - 1) < peak
  {
    if t: nat :| Opening(s, c, t) {
      assert HandOk(s, t);
      OpenerUses(s, c, t);
    }
    CapacityIsProduct(Active(s, c) - 1, s.size);
  }

  /** The arena bound.  In a run in which no free into context `c` overlaps an allocation on it, whatever
      happens on other contexts, the slots of all active arenas of `c` but one are, between the
      allocations on `c`, fewer than the peak of its allocated slots. */
  lemma ActiveArenasBounded(states: seq<State>, events: seq<Event>, k: nat, c: nat)
    requires IsRun(states, events) && k < |states|
    requires forall j :: 0 <= j <= k ==> NoOverlap(states[j], c)
    requires forall t: nat :: !AllocatesOn(states[k], t, c)
    requires HasContext(states[k], c) && states[k].contexts[c].value.active > 0
    ensures (states[k].contexts[c].value.active - 1) * (states[k].size - 1) < Peak(states, k, c)
  {
    RunKeepsBound(states, events, k, c);
    RunInv(states, events, k);
    BetweenAllocations(states[k], c, Peak(states, k, c));
  }
}
