module AllocationPolicy {
  // Which slot an allocation returns and which arenas it leaves active, told from the context's books before the
  // call: the periodic give-back first, then the local chain, then the first shared stack that is not
  // empty, then an arena that was given back, then a new one.

  import opened Words
  import opened Handles
  import opened Allocator
  import opened AllocatorInvariant
  import AS = AllocatorSteps
  import opened ArenaBound
  import opened OwnerModel
  import opened OwnerCalls

  /** What the owner of a context can read: the count of allocations, the local top, and the index and the top word of
      each owned arena. */
  datatype Books = Books(size: nat, count: nat, active: nat, localTop: U32, names: seq<nat>, tops: seq<Word>,
                         counter: nat)

  /** The allocation is one at which the last active arena is looked at, and all its slots have come back. */
  predicate GivesBack(b: Books) {
    b.size > 0 && (b.count + 1) % b.size == 0 && 0 < b.active <= |b.tops| && b.tops[b.active - 1].hi == b.size - 1
  }

  /** The active arenas among which a slot is looked for. */
  function Kept(b: Books): nat {
    if GivesBack(b) then b.active - 1 else b.active
  }

  predicate HasLocal(b: Books) {
    b.localTop != HANDLE_NULL && SlotOf(b.localTop) != 0
  }

  /** The shared stacks of the first `n` arenas are empty. */
  predicate NoneToSteal(b: Books, n: nat) {
    n <= |b.tops| == |b.names| && forall i :: 0 <= i < n ==> IsHandle(b.tops[i].lo, b.names[i], 0)
  }

  /** Arena `i` is the first one whose shared stack is not empty. */
  predicate IsFirstToSteal(b: Books, i: nat) {
    i < |b.tops| == |b.names| && NoneToSteal(b, i) && !IsHandle(b.tops[i].lo, b.names[i], 0)
  }

  /** Handle `h` is the top of the first shared stack that is not empty among the first `n` arenas. */
  predicate IsStolenTop(b: Books, n: nat, h: U32) {
    exists i :: 0 <= i < n && IsFirstToSteal(b, i) && h == b.tops[i].lo
  }

  /** An allocation that begins with books `b` returns `h` and leaves books `b'`. */
  predicate Serves(b: Books, b': Books, h: U32) {
    && b'.size == b.size && b'.count == b.count + 1
    && if HasLocal(b) then
         h == b.localTop && b'.active == Kept(b) && b'.names == b.names && b'.counter == b.counter
       else if !NoneToSteal(b, Kept(b)) then
         && b'.active == Kept(b) && b'.names == b.names && b'.counter == b.counter
         && IsStolenTop(b, Kept(b), h)
       else if Kept(b) < |b.names| then
         && b.size > 0 && IsHandle(h, b.names[Kept(b)], b.size - 1)
         && b'.active == Kept(b) + 1 && b'.names == b.names && b'.counter == b.counter
       else if b.counter < MAX_ARENAS then
         && b.size > 0 && IsHandle(h, b.counter, b.size - 1) && b'.active == Kept(b) + 1
         && b'.names == b.names + [b.counter] && b'.counter == b.counter + 1
       else h == HANDLE_NULL && b'.active == Kept(b) && b'.names == b.names
  }

  function TopOf(s: State, a: nat): Word {
    if a in s.arenas then s.arenas[a].top else Word(0, 0)
  }

  /** The books of context 0. */
  function BooksOf(s: State): Books
    requires Single(s)
  {
    var ctx := s.contexts[0].value;
    Books(s.size, ctx.count, ctx.active, ctx.localTop, ctx.owned,
          seq(|ctx.owned|, k requires 0 <= k < |ctx.owned| => TopOf(s, ctx.owned[k])), |s.takers|)
  }

  /** The books agree but for the count, the local top and what is no longer active. */
  predicate SameActive(b: Books, b': Books) {
    && b'.size == b.size && b'.names == b.names && b'.counter == b.counter && |b'.tops| == |b.tops| == |b.names|
    && b'.active <= b.active <= |b.names| && forall i :: 0 <= i < b'.active ==> b'.tops[i] == b.tops[i]
  }

  predicate OwnsDistinct(ctx: Context) {
    ctx.active <= |ctx.owned| && forall i, j :: 0 <= i < j < |ctx.owned| ==> ctx.owned[i] != ctx.owned[j]
  }

  lemma ActiveOwned(s: State, peak: nat)
    requires Sound(s, peak)
    ensures Single(s) && OwnsDistinct(s.contexts[0].value)
    ensures forall i {:trigger HasOwned(s, 0, i)} :: 0 <= i < s.contexts[0].value.active ==> HasOwned(s, 0, i)
  {
    var ctx := s.contexts[0].value;
    assert ContextOk(s, 0, ctx);
    ExitIsReady(s, peak);
    forall i, j | 0 <= i < j < |ctx.owned| ensures ctx.owned[i] != ctx.owned[j] {
      AS.OwnedArena(s, 0, i);
      AS.OwnedArena(s, 0, j);
    }
  }

  lemma BeganBooks(s: State, peak: nat, junkTop: Word, junk: seq<U32>)
    requires Sound(s, peak) && BeginReady(s)
    ensures var s1 := Began(s, junkTop, junk);
      && Single(s1) && SameActive(BooksOf(s), BooksOf(s1)) && s1.contexts[0].value.active == Kept(BooksOf(s))
      && s1.contexts[0].value.count == s.contexts[0].value.count + 1
      && s1.contexts[0].value.localTop == s.contexts[0].value.localTop
  {
    ActiveOwned(s, peak);
    var n := s.contexts[0].value.active;
    if n > 0 { assert HasOwned(s, 0, n - 1); }
  }

  /** The search that began with books `b` has ended in `s`: with the first stack that is not empty, or with none. */
  predicate HasSearched(b: Books, s: State) {
    && Single(s) && s.size == b.size && |s.takers| == b.counter
    && var ctx := s.contexts[0].value;
      && ctx.owned == b.names && ctx.active == b.active && ctx.count == b.count
      && (s.pcs[0].AllocGrow? <==> NoneToSteal(b, b.active))
      && (s.pcs[0].AllocGrow? || s.failed || IsStolenTop(b, b.active, ctx.localTop))
  }

  lemma StealBooks(s: State)
    requires ScanReady(s) && s.contexts[0].value.active <= |s.contexts[0].value.owned|
    requires NoneToSteal(BooksOf(s), s.pcs[0].k) && s.pcs[0].k < s.contexts[0].value.active
    requires HasOwned(s, 0, s.pcs[0].k) && DoScan(s, 0).pcs[0].AllocSteal?
    ensures HasSearched(BooksOf(s), DoSteal(DoScan(s, 0), 0))
  {
    var b, k := BooksOf(s), s.pcs[0].k;
    assert b.tops[k] == s.arenas[s.contexts[0].value.owned[k]].top;
    assert IsFirstToSteal(b, k);
  }

  lemma NextBooks(s: State)
    requires ScanReady(s) && s.contexts[0].value.active <= |s.contexts[0].value.owned|
    requires NoneToSteal(BooksOf(s), s.pcs[0].k) && s.pcs[0].k < s.contexts[0].value.active
    requires HasOwned(s, 0, s.pcs[0].k) && !DoScan(s, 0).pcs[0].AllocSteal?
    ensures Single(DoScan(s, 0)) && BooksOf(DoScan(s, 0)) == BooksOf(s) && NoneToSteal(BooksOf(s), s.pcs[0].k + 1)
  {
    var b, k := BooksOf(s), s.pcs[0].k;
    assert BooksOf(DoScan(s, 0)).tops == b.tops;
    HandleRoundTrip(b.names[k], 0);
    forall i | 0 <= i < k + 1 ensures IsHandle(b.tops[i].lo, b.names[i], 0) {
      assert i < k ==> IsHandle(b.tops[i].lo, b.names[i], 0);
    }
  }

  lemma {:induction false} ScannedBooks(s: State)
    requires ScanReady(s) && s.contexts[0].value.active <= |s.contexts[0].value.owned|
    requires NoneToSteal(BooksOf(s), s.pcs[0].k) && s.pcs[0].k <= s.contexts[0].value.active
    ensures HasSearched(BooksOf(s), Scanned(s))
    decreases s.contexts[0].value.active - s.pcs[0].k
  {
    if s.pcs[0].k < s.contexts[0].value.active {
      ScanGoesOn(s);
      if DoScan(s, 0).pcs[0].AllocSteal? {
        StealBooks(s);
      } else {
        NextBooks(s);
        ScannedBooks(DoScan(s, 0));
      }
    }
  }

  /** Taking a slot from the local chain changes neither the arenas of the context nor its count. */
  lemma TakenBooks(s: State)
    requires Single(s) && (s.pcs[0] == AllocPop(0) || s.pcs[0] == AllocLast(0)) && CanPop(s, 0)
    requires !LocalEmpty(s.contexts[0].value)
    ensures var r := Taken(s); var ctx, ctx' := s.contexts[0].value, r.contexts[0].value;
      && Single(r) && r.takers == s.takers && r.size == s.size
      && ctx'.owned == ctx.owned && ctx'.active == ctx.active && ctx'.count == ctx.count
  {
  }

  /** What `init_arena` does to the books: an arena that was given back, else a new one, else failure. */
  lemma GrewBooks(s: State)
    requires GrowReady(s)
    ensures var r := Grew(s); var ctx, ctx' := s.contexts[0].value, r.contexts[0].value;
      && Single(r) && r.size == s.size && ctx'.count == ctx.count
      && if ctx.active < |ctx.owned| then
           && IsHandle(ctx'.localTop, ctx.owned[ctx.active], s.size - 1) && r.takers == s.takers
           && ctx'.active == ctx.active + 1 && ctx'.owned == ctx.owned && !r.pcs[0].Idle?
         else if |s.takers| < MAX_ARENAS then
           && IsHandle(ctx'.localTop, |s.takers|, s.size - 1) && |r.takers| == |s.takers| + 1
           && ctx'.active == ctx.active + 1 && ctx'.owned == ctx.owned + [|s.takers|] && !r.pcs[0].Idle?
         else ctx'.active == ctx.active && ctx'.owned == ctx.owned && r.pcs[0].Idle?
  {
    var ctx := s.contexts[0].value;
    if ctx.active < |ctx.owned| {
      HandleRoundTrip(ctx.owned[ctx.active], s.size - 1);
    } else if |s.takers| < MAX_ARENAS {
      HandleRoundTrip(|s.takers|, s.size - 1);
    }
  }

  lemma StolenTopStays(b: Books, b': Books, h: U32)
    requires SameActive(b, b') && IsStolenTop(b', b'.active, h)
    ensures IsStolenTop(b, b'.active, h)
  {
    var i :| 0 <= i < b'.active && IsFirstToSteal(b', i) && h == b'.tops[i].lo;
    assert IsFirstToSteal(b, i) && h == b.tops[i].lo;
  }

  /** The search: a batch, an arena that was given back, a new arena, or failure. */
  lemma RefilledBooks(s: State, b: Books)
    requires RefillReady(s) && s.pcs[0].k == 0 && !HasLocal(b) && !Scanned(s).failed
    requires SameActive(b, BooksOf(s)) && s.contexts[0].value.active == Kept(b)
    requires s.contexts[0].value.count == b.count + 1
    ensures Single(Refilled(s))
    ensures var m := BeforeTake(s);
      Serves(b, BooksOf(Refilled(s)), if m.pcs[0].Idle? then HANDLE_NULL else m.contexts[0].value.localTop)
  {
    ScannedBooks(s);
    var s1, m := Scanned(s), BeforeTake(s);
    assert NoneToSteal(b, Kept(b)) <==> NoneToSteal(BooksOf(s), Kept(b));
    if s1.pcs[0].AllocGrow? {
      GrewBooks(s1);
    } else {
      StolenTopStays(b, BooksOf(s), s1.contexts[0].value.localTop);
    }
    if !m.pcs[0].Idle? { TakenBooks(m); }
  }

  /** After the count and the periodic check, which led to `s`: the local chain, or the search. */
  lemma ServesAfterCheck(s: State, peak: nat, b: Books)
    requires Sound(s, peak) && s.pcs[0] == AllocPop(0) && Single(s) && b.localTop == s.contexts[0].value.localTop
    requires SameActive(b, BooksOf(s)) && s.contexts[0].value.active == Kept(b)
    requires s.contexts[0].value.count == b.count + 1 && LocalEmpty(s.contexts[0].value)
    ensures CanPop(s, 0) && RefillReady(DoPop(s, 0)) && Single(Refilled(DoPop(s, 0)))
    ensures var m := BeforeTake(DoPop(s, 0));
      Serves(b, BooksOf(Refilled(DoPop(s, 0))), if m.pcs[0].Idle? then HANDLE_NULL else m.contexts[0].value.localTop)
  {
    PopKeeps(s, peak);
    var s1 := DoPop(s, 0);
    assert BooksOf(s1) == BooksOf(s).(localTop := HANDLE_NULL);
    RefillKeeps(s1, peak);
    ScannedKeeps(s1, peak);
    RefilledBooks(s1, b);
  }

  /** A whole `alloc_slot`, told by its books. */
  lemma AllocServes(s: State, peak: nat, junkTop: Word, junk: seq<U32>)
    requires Sound(s, peak) && s.pcs[0].Idle? && s.tls[0] == Some(0) && AllocReady(s, junkTop, junk) && |junk| == s.size
    ensures Single(s) && Single(Alloced(s, junkTop, junk))
    ensures Serves(BooksOf(s), BooksOf(Alloced(s, junkTop, junk)), Handed(s, junkTop, junk))
  {
    BeganKeeps(s, peak, junkTop, junk);
    BeganBooks(s, peak, junkTop, junk);
    var s1 := Began(s, junkTop, junk);
    if LocalEmpty(s1.contexts[0].value) {
      ServesAfterCheck(s1, peak, BooksOf(s));
    } else {
      TakenBooks(s1);
    }
  }

  /** What a whole `alloc_slot` comes to: the slot that changes hands, the peak, and the books. */
  lemma AllocPlan(s: State, peak: nat, junkTop: Word, junk: seq<U32>) returns (newPeak: nat)
    requires Sound(s, peak) && s.pcs[0].Idle? && s.tls[0] == Some(0) && |junk| == s.size
    ensures AllocReady(s, junkTop, junk)
    ensures var r, h := Alloced(s, junkTop, junk), Handed(s, junkTop, junk);
      && Sound(r, newPeak) && r.pcs[0].Idle? && r.tls == s.tls
      && Single(s) && Single(r) && Serves(BooksOf(s), BooksOf(r), h)
      && if h == HANDLE_NULL then SameBusy(s, r) && newPeak == peak && |s.takers| >= MAX_ARENAS
         else HandsOut(s, r, h) && newPeak == Max(peak, |Busy(r, 0)|)
  {
    AllocCall(s, peak, junkTop, junk);
    AllocServes(s, peak, junkTop, junk);
    var r := Alloced(s, junkTop, junk);
    newPeak := if Handed(s, junkTop, junk) == HANDLE_NULL then peak else Max(peak, |Busy(r, 0)|);
  }

  // Thread exit.

  /** An exit that begins with books `b` leaves books `b'`: from the end of the active arenas, exactly those have been
      given back that were fully free, up to the first one in use. */
  predicate Leaves(b: Books, b': Books) {
    && b'.size == b.size && b'.count == b.count && b'.localTop == b.localTop && b'.counter == b.counter
    && b'.names == b.names && |b'.tops| == |b.tops| && b'.active <= b.active <= |b.tops|
    && (forall i :: 0 <= i < b'.active ==> b'.tops[i] == b.tops[i])
    && (forall i :: b'.active <= i < b.active ==> b.tops[i].hi == b.size - 1)
    && (b'.active > 0 ==> b.tops[b'.active - 1].hi != b.size - 1)
  }

  /** Between books `b` and `b1` the last active arena, fully free, has been given back. */
  predicate GaveBackLast(b: Books, b1: Books) {
    && 0 < b.active <= |b.tops| == |b1.tops| && b1 == b.(active := b.active - 1, tops := b1.tops)
    && b.tops[b.active - 1].hi == b.size - 1 && forall i :: 0 <= i < b1.active ==> b1.tops[i] == b.tops[i]
  }

  lemma DropBooks(s: State, junkTop: Word, junk: seq<U32>)
    requires Single(s) && OwnsDistinct(s.contexts[0].value) && HasLast(s, 0) && IsFull(s, s.arenas[Last(s, 0)].top)
    ensures var s1 := DoDrop(s, 0, 0, junkTop, junk, ExitCheck(0));
      Single(s1) && GaveBackLast(BooksOf(s), BooksOf(s1)) && OwnsDistinct(s1.contexts[0].value)
  {
  }

  lemma DroppedOneMore(b: Books, b1: Books, b': Books)
    requires Leaves(b1, b') && GaveBackLast(b, b1)
    ensures Leaves(b, b')
  {
    forall i | b'.active <= i < b.active ensures b.tops[i].hi == b.size - 1 {
      if i < b1.active { assert b1.tops[i] == b.tops[i]; }
    }
  }

  lemma {:induction false} DroppedBooks(s: State, junkTop: nat -> Word, junk: nat -> seq<U32>)
    requires ExitReady(s) && OwnsDistinct(s.contexts[0].value)
    ensures Leaves(BooksOf(s), BooksOf(Dropped(s, junkTop, junk)))
    decreases s.contexts[0].value.active
  {
    var n := s.contexts[0].value.active;
    LastIsThere(s);
    if LastEmpty(s) {
      DropGoesOn(s, junkTop, junk);
      var s1 := DoDrop(s, 0, 0, junkTop(n), junk(n), ExitCheck(0));
      DropBooks(s, junkTop(n), junk(n));
      DroppedBooks(s1, junkTop, junk);
      DroppedOneMore(BooksOf(s), BooksOf(s1), BooksOf(Dropped(s, junkTop, junk)));
    }
  }

  lemma ExitLeaves(s: State, peak: nat, junkTop: nat -> Word, junk: nat -> seq<U32>)
    requires Sound(s, peak) && ExitReady(s) && s.tls[0] == Some(0)
    ensures Single(Exited(s, junkTop, junk)) && Leaves(BooksOf(s), BooksOf(Exited(s, junkTop, junk)))
  {
    ActiveOwned(s, peak);
    var s1 := DoExit(s, 0);
    ExitStays(s, s1);
    DroppedBooks(s1, junkTop, junk);
    assert BooksOf(s1) == BooksOf(s);
    assert BooksOf(Exited(s, junkTop, junk)) == BooksOf(Dropped(s1, junkTop, junk));
  }
}
