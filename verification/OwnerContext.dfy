/**
 The owner's code of the allocator, in place: arenas, link words and the vectors of a thread
 context as arrays that the methods update, for one context whose calls do not overlap.

 `model` is history: the state of the allocator's step machine that the calls have reached.
 Every method is proved to perform steps of that machine, so that whatever every step of the
 machine keeps holds of the memory here.
 */
module OwnerContext {
  import opened Words
  import opened Handles
  import opened Allocator
  import opened ArenaBound
  import opened OwnerModel
  import opened OwnerCalls
  import opened AllocationPolicy

  class MemoryArena {
    var top: Word
    const words: array<U32>

    constructor (size: nat)
      ensures fresh(words) && words.Length == size && top == Word(0, 0)
    {
      top := Word(0, 0);
      words := new U32[size](_ => 0);
    }
  }

  /** The arena in memory is the arena of the machine. */
  ghost predicate SameArena(arena: MemoryArena, m: Arena)
    reads arena, arena.words
  {
    arena.top == m.top && arena.words[..] == m.words
  }

  /** Links slots 1 to the last of arena `a` into a chain that ends at the sentinel, whatever the
      arena held before, and returns the handle of its top. */
  method SetupArenaStack(arena: MemoryArena, a: nat) returns (next: U32)
    requires a < MAX_ARENAS && 2 <= arena.words.Length < SLOT_SPAN
    modifies arena, arena.words
    ensures arena.top == Word(0, Sentinel(a))
    ensures arena.words[..] == FreshWords(a, arena.words.Length)
    ensures next == HandleOf(a, arena.words.Length - 1)
  {
    arena.words[0] := HANDLE_NULL;
    arena.top := Word(0, Sentinel(a));
    next := Sentinel(a);
    var i := 1;
    while i < arena.words.Length
      invariant 1 <= i <= arena.words.Length
      invariant arena.top == Word(0, Sentinel(a)) && next == HandleOf(a, i - 1)
      invariant forall j :: 0 <= j < i ==> arena.words[j] == FreshWords(a, arena.words.Length)[j]
    {
      var curr := HandleOf(a, i);
      arena.words[i] := curr;
      arena.words[i] := next;
      next := curr;
      i := i + 1;
    }
  }

  /** Longer copies of both vectors, NULL beyond the old contents. */
  method Reallocated(arenas: array<MemoryArena?>, indices: array<U32>, newCap: nat)
    returns (newArenas: array<MemoryArena?>, newIndices: array<U32>)
    requires arenas.Length == indices.Length <= newCap
    ensures fresh(newArenas) && fresh(newIndices) && newArenas.Length == newIndices.Length == newCap
    ensures newArenas[..arenas.Length] == arenas[..] && newIndices[..indices.Length] == indices[..]
    ensures forall k :: arenas.Length <= k < newCap ==> newArenas[k] == null
  {
    newArenas, newIndices := new MemoryArena?[newCap], new U32[newCap];
    forall k | 0 <= k < arenas.Length { newArenas[k] := arenas[k]; }
    forall k | 0 <= k < arenas.Length { newIndices[k] := indices[k]; }
    var k := arenas.Length;
    while k < newCap
      invariant arenas.Length <= k <= newCap
      invariant newArenas[..arenas.Length] == arenas[..] && newIndices[..indices.Length] == indices[..]
      invariant forall i :: arenas.Length <= i < k ==> newArenas[i] == null
    {
      newArenas[k] := null;
      k := k + 1;
    }
  }

  class ThreadContext {
    const size: nat
    const table: array<MemoryArena?>
    var counter: nat
    var owned: array<MemoryArena?>
    var indices: array<U32>
    var active: nat
    var capacity: nat
    var localTop: U32
    var count: nat
    var used: bool            // the thread id is taken
    ghost var repr: set<object>
    ghost var model: State
    ghost var peak: nat

    /** The objects are apart and the vectors have the recorded capacity. */
    ghost predicate Apart()
      reads this, repr
    {
      && 2 <= size < SLOT_SPAN
      && this !in repr && table in repr && owned in repr && indices in repr
      && table.Length == MAX_ARENAS && table != owned && owned.Length == indices.Length == capacity
      && (forall a {:trigger table[a]} :: 0 <= a < MAX_ARENAS && table[a] != null ==>
            table[a] in repr && table[a].words in repr && table[a].words != indices && table[a].words.Length == size)
      && (forall a, b {:trigger table[a], table[b]} ::
            0 <= a < b < MAX_ARENAS && table[a] != null && table[b] != null ==>
            table[a] != table[b] && table[a].words != table[b].words)
    }

    ghost predicate SameTable()
      requires Apart()
      reads this, repr
    {
      && counter == |model.takers|
      && (forall a :: a in model.arenas ==> a < MAX_ARENAS)
      && (forall a {:trigger table[a]} :: 0 <= a < MAX_ARENAS ==>
            if table[a] != null then a in model.arenas && SameArena(table[a], model.arenas[a]) else a !in model.arenas)
    }

    /** The vectors hold the owned arenas and their indices, and NULL from there to the capacity. */
    ghost predicate SameVectors(names: seq<nat>)
      requires Apart()
      reads this, repr
    {
      && |names| <= capacity
      && (forall k :: 0 <= k < |names| ==>
            names[k] < MAX_ARENAS && table[names[k]] != null && owned[k] == table[names[k]] && indices[k] == names[k])
      && (forall k :: |names| <= k < capacity ==> owned[k] == null)
    }

    ghost predicate SameContext(ctx: Context)
      requires Apart()
      reads this, repr
    {
      active == ctx.active && localTop == ctx.localTop && count == ctx.count && SameVectors(ctx.owned)
    }

    /** The memory is that of the state `model` of the machine, with one thread and one context. */
    ghost predicate Mirrors()
      reads this, repr
    {
      && Apart()
      && model.size == size && |model.pcs| == |model.tls| == |model.contexts| == 1 && model.contexts[0].Some?
      && model.used == [used]
      && SameTable() && SameContext(model.contexts[0].value)
    }

    /** The books of the context, read off the arrays. */
    ghost function MemoryBooks(): Books
      requires Mirrors()
      reads this, repr
    {
      var n := |model.contexts[0].value.owned|;
      Books(size, count, active, localTop, seq(n, k requires 0 <= k < n reads this, repr => IndexAt(k)),
            seq(n, k requires 0 <= k < n reads this, repr => TopAt(k)), counter)
    }

    ghost function IndexAt(k: nat): nat
      reads this, repr
    {
      if k < indices.Length && indices in repr then indices[k] else 0
    }

    ghost function TopAt(k: nat): Word
      reads this, repr
    {
      if k < owned.Length && owned in repr && owned[k] != null && owned[k] in repr then owned[k].top else Word(0, 0)
    }

    lemma BooksAreMemory()
      requires Mirrors()
      ensures Single(model) && BooksOf(model) == MemoryBooks()
    {
      var b, ctx := MemoryBooks(), model.contexts[0].value;
      assert BooksOf(model).tops == b.tops;
      assert ctx.owned == b.names;
    }

    /** Takes the top of the local chain. */
    method PopLocal() returns (h: U32)
      requires Mirrors() && (model.pcs[0] == AllocPop(0) || model.pcs[0] == AllocLast(0)) && CanPop(model, 0)
      modifies this`model, this`localTop, repr
      ensures Mirrors() && model == DoPop(old(model), 0)
      ensures h == if old(LocalEmpty(model.contexts[0].value)) then HANDLE_NULL else old(localTop)
    {
      ghost var m := model;
      model := DoPop(m, 0);
      if localTop == HANDLE_NULL {
        return HANDLE_NULL;
      }
      h := localTop;
      if SlotOf(h) == 0 {
        localTop := HANDLE_NULL;
        return HANDLE_NULL;
      }
      var arena := table[ArenaOf(h)];
      localTop := arena.words[SlotOf(h)];
      arena.words[SlotOf(h)] := h;
    }

    /** Takes the whole shared stack of the `i`-th arena as the local chain. */
    method StealBatch(i: nat)
      requires Mirrors() && model.pcs[0] == AllocSteal(0, i) && HasOwned(model, 0, i)
      requires model.arenas[model.contexts[0].value.owned[i]].top.lo != Sentinel(model.contexts[0].value.owned[i])
      modifies this`model, this`localTop, repr
      ensures Mirrors() && model == DoSteal(old(model), 0)
    {
      ghost var m := model;
      model := DoSteal(m, 0);
      var arena := owned[i];
      var batch := arena.top;
      arena.top := Word(0, Sentinel(indices[i]));
      localTop := batch.lo;
    }

    /** Gives the last active arena back if its depth tag says that all its slots have been
        returned; `junkTop` and `junk` are what the arena holds afterwards. */
    method ReclaimLastArenaIfEmpty(junkTop: Word, junk: seq<U32>) returns (done: bool)
      requires Mirrors() && |junk| == size && (active > 0 ==> HasLast(model, 0))
      modifies this`model, this`active, repr
      ensures Mirrors()
      ensures done == (old(active) > 0 && IsFull(old(model), old(model).arenas[Last(old(model), 0)].top))
      ensures model == if done then DoDrop(old(model), 0, 0, junkTop, junk, old(model).pcs[0]) else old(model)
    {
      if active == 0 {
        return false;
      }
      var arena := owned[active - 1];
      if arena.top.hi != size - 1 {
        return false;
      }
      model := DoDrop(model, 0, 0, junkTop, junk, model.pcs[0]);
      arena.top := junkTop;
      forall j | 0 <= j < size { arena.words[j] := junk[j]; }
      active := active - 1;
      return true;
    }

    /** Doubles the vectors when they are full; the new entries are NULL. */
    method EnsureVectorCapacity(ghost names: seq<nat>)
      requires Apart() && SameVectors(names) && active <= capacity
      modifies this`owned, this`indices, this`capacity, this`repr
      ensures Apart() && SameVectors(names) && active < capacity
      ensures fresh(repr - old(repr)) && old(repr) <= repr
      ensures (owned == old(owned) || fresh(owned)) && (indices == old(indices) || fresh(indices))
      ensures old(active < capacity) ==> owned == old(owned) && indices == old(indices) && capacity == old(capacity)
      ensures old(active == capacity) ==> capacity == if old(capacity) == 0 then 4 else 2 * old(capacity)
    {
      if active < capacity {
        return;
      }
      var newCap := if capacity == 0 then 4 else capacity * 2;
      var newArenas, newIndices := Reallocated(owned, indices, newCap);
      owned, indices, capacity := newArenas, newIndices, newCap;
      repr := repr + {newArenas, newIndices};
    }

    /** Registers a new arena under the drawn index and appends it to the vectors. */
    method AddArena(idx: nat, ghost names: seq<nat>) returns (arena: MemoryArena)
      requires Apart() && SameVectors(names) && active == |names| && idx < MAX_ARENAS && table[idx] == null
      modifies this`owned, this`indices, this`capacity, this`repr, table, owned, indices
      ensures Apart() && SameVectors(names + [idx])
      ensures fresh(repr - old(repr)) && old(repr) <= repr
      ensures fresh(arena) && fresh(arena.words) && arena.words.Length == size
      ensures table[..] == old(table[..])[idx := arena]
    {
      arena := new MemoryArena(size);
      table[idx] := arena;
      repr := repr + {arena, arena.words};
      EnsureVectorCapacity(names);
      owned[active] := arena;
      indices[active] := idx;
    }

    /** A new arena with its links set up. */
    method InstallArena(idx: nat, ghost names: seq<nat>) returns (next: U32)
      requires Apart() && SameVectors(names) && active == |names| && idx < MAX_ARENAS && table[idx] == null
      modifies this`owned, this`indices, this`capacity, this`repr, table, owned, indices
      ensures Apart() && SameVectors(names + [idx])
      ensures fresh(repr - old(repr)) && old(repr) <= repr
      ensures table[idx] != null && table[..] == old(table[..])[idx := table[idx]]
      ensures table[idx].top == Word(0, Sentinel(idx)) && table[idx].words[..] == FreshWords(idx, size)
      ensures next == HandleOf(idx, size - 1)
    {
      var arena := AddArena(idx, names);
      assert table[idx] == arena;
      next := SetupArenaStack(arena, idx);
    }

    /** Sets up again the arena after the active ones, which had been given back. */
    method ReuseArena()
      requires Mirrors() && model.pcs[0] == AllocGrow(0) && CanGrow(model, 0)
      requires active < |model.contexts[0].value.owned|
      modifies this`model, this`active, this`localTop, repr
      ensures Mirrors() && model == DoGrow(old(model), 0)
    {
      var arena, idx := owned[active], indices[active];
      var next := SetupArenaStack(arena, idx);
      active := active + 1;
      localTop := next;
      model := DoGrow(model, 0);
    }

    /** Sets up a new arena under the next index. */
    method NewArena()
      requires Mirrors() && counter < MAX_ARENAS && active == |model.contexts[0].value.owned|
      requires |model.takers| !in model.arenas
      modifies this`model, this`active, this`localTop, this`counter, this`owned, this`indices, this`capacity,
               this`repr, repr
      ensures Mirrors() && fresh(repr - old(repr)) && old(repr) <= repr
      ensures model == WithNewArena(old(model))
    {
      var next := InstallArena(counter, model.contexts[0].value.owned);
      model := WithNewArena(model);
      active := active + 1;
      counter := counter + 1;
      localTop := next;
    }

    /** Sets up an arena as the last active one: one that was given back if there is one, else a
        new one, unless all indices have been drawn. */
    method InitArena() returns (ok: bool)
      requires Mirrors() && model.pcs[0] == AllocGrow(0) && CanGrow(model, 0)
      requires active <= |model.contexts[0].value.owned|
      requires |model.takers| !in model.arenas
      modifies this`model, this`active, this`localTop, this`counter, this`owned, this`indices, this`capacity,
               this`repr, repr
      ensures Mirrors() && fresh(repr - old(repr)) && old(repr) <= repr
      ensures model == Grew(old(model)) && ok == !model.pcs[0].Idle?
    {
      if active < capacity && owned[active] != null {
        ReuseArena();
        return true;
      }
      if counter >= MAX_ARENAS {
        counter := counter + 1;
        model := DoGrow(model, 0);
        return false;
      }
      NewIsGrowThenSetup(model);
      NewArena();
      return true;
    }

    method CountAlloc()
      requires Mirrors()
      modifies this`model, this`count
      ensures Mirrors() && model == Counted(old(model)) && count == old(count) + 1
    {
      model := Counted(model);
      count := count + 1;
    }

    /** Counts the allocation and, every `size`-th time, checks the last active arena. */
    method BeginAlloc(junkTop: Word, junk: seq<U32>)
      requires Mirrors() && BeginReady(model) && |junk| == size
      modifies this`model, this`count, this`active, repr
      ensures Mirrors() && model == Began(old(model), junkTop, junk) && count == old(count) + 1
    {
      BeganIsCounted(model, junkTop, junk);
      CountAlloc();
      if count % size == 0 {
        var _ := ReclaimLastArenaIfEmpty(junkTop, junk);
      }
      model := model.(pcs := [AllocPop(0)]);
    }

    /** Takes the shared stack of the `i`-th arena unless it is empty. */
    method TryArena(i: nat) returns (hit: bool)
      requires Mirrors() && ScanReady(model) && model.pcs[0] == AllocScan(0, i) && i < active
      modifies this`model, this`localTop, repr
      ensures Mirrors() && hit == DoScan(old(model), 0).pcs[0].AllocSteal?
      ensures model == if hit then DoSteal(DoScan(old(model), 0), 0) else DoScan(old(model), 0)
    {
      assert HasOwned(model, 0, i);
      model := DoScan(model, 0);
      if owned[i].top.lo == Sentinel(indices[i]) {
        return false;
      }
      StealBatch(i);
      return true;
    }

    /** Looks for an active arena whose shared stack is not empty and takes it. */
    method StealFromArenas() returns (stolen: bool)
      requires Mirrors() && ScanReady(model) && model.pcs[0] == AllocScan(0, 0)
      modifies this`model, this`localTop, repr
      ensures Mirrors() && model == Scanned(old(model)) && stolen == !model.pcs[0].AllocGrow?
    {
      var i := 0;
      while i < active
        invariant Mirrors() && ScanReady(model) && model.pcs[0] == AllocScan(0, i)
        invariant Scanned(model) == Scanned(old(model))
      {
        ScanGoesOn(model);
        var hit := TryArena(i);
        if hit {
          return true;
        }
        i := i + 1;
      }
      model := DoScan(model, 0);
      return false;
    }

    /** The call returns the slot it has in hand. */
    ghost method Deliver()
      requires Mirrors() && model.pcs[0].Got? && HasSlot(model, model.pcs[0].handle)
      modifies this`model
      ensures Mirrors() && model == DoDeliver(old(model), 0)
    {
      var h := model.pcs[0].handle;
      var arena := model.arenas[ArenaOf(h)];
      assert arena.words[SlotOf(h) := WordAt(model, h)] == arena.words;
      model := DoDeliver(model, 0);
    }

    /** A batch from an active arena or a new arena, and the first slot of it; HANDLE_NULL if no index is left. */
    method Refill() returns (h: U32)
      requires Mirrors() && RefillReady(model) && model.pcs[0] == AllocScan(0, 0)
      modifies this`model, this`active, this`localTop, this`counter, this`owned, this`indices, this`capacity,
               this`repr, repr
      ensures Mirrors() && fresh(repr - old(repr)) && old(repr) <= repr
      ensures model == Refilled(old(model))
      ensures h == var m := BeforeTake(old(model)); if m.pcs[0].Idle? then HANDLE_NULL else m.contexts[0].value.localTop
    {
      var stolen := StealFromArenas();
      if !stolen {
        var ok := InitArena();
        if !ok {
          return HANDLE_NULL;
        }
      }
      h := PopLocal();
      Deliver();
    }

    /** `alloc_slot`, as steps of the machine. */
    method AllocSteps(junkTop: Word, junk: seq<U32>) returns (h: U32)
      requires Mirrors() && |junk| == size && AllocReady(model, junkTop, junk)
      modifies this`model, this`count, this`active, this`localTop, this`counter, this`owned, this`indices,
               this`capacity, this`repr, repr
      ensures Mirrors() && fresh(repr - old(repr)) && old(repr) <= repr
      ensures model == Alloced(old(model), junkTop, junk) && h == Handed(old(model), junkTop, junk)
    {
      BeginAlloc(junkTop, junk);
      h := PopLocal();
      if h != HANDLE_NULL {
        Deliver();
        return;
      }
      h := Refill();
    }

    /** The same, with the books afterwards. */
    method AllocByBooks(junkTop: Word, junk: seq<U32>) returns (h: U32)
      requires Mirrors() && |junk| == size && AllocReady(model, junkTop, junk)
      modifies this`model, this`count, this`active, this`localTop, this`counter, this`owned, this`indices,
               this`capacity, this`repr, repr
      ensures Mirrors() && fresh(repr - old(repr)) && old(repr) <= repr
      ensures model == Alloced(old(model), junkTop, junk) && h == Handed(old(model), junkTop, junk)
      ensures Single(model) && MemoryBooks() == BooksOf(model)
    {
      h := AllocSteps(junkTop, junk);
      BooksAreMemory();
    }

    /** The memory mirrors a state of a run of calls that do not overlap, and `peak` is its peak. */
    ghost predicate Valid()
      reads this, repr
    {
      Mirrors() && Sound(model, peak)
    }

    ghost method RaisePeak(newPeak: nat)
      requires Mirrors()
      modifies this`peak
      ensures Mirrors() && peak == newPeak
    {
      peak := newPeak;
    }

    /** Allocates a slot.  The handle returned was not allocated before and is now, nothing else
        changed hands; HANDLE_NULL means that all indices have been drawn.  Which slot it is and which
        arenas stay active, the periodic give-back included, is told from the memory before the
        call.  `junkTop` and `junk` are what an arena holds after it has been given back. */
    method AllocSlot(junkTop: Word, junk: seq<U32>) returns (h: U32)
      requires Valid() && model.pcs[0].Idle? && model.tls[0] == Some(0) && |junk| == size
      modifies this, repr
      ensures Valid() && model.pcs[0].Idle? && model.tls == old(model.tls)
      ensures fresh(repr - old(repr)) && old(repr) <= repr
      ensures h != HANDLE_NULL ==> HandsOut(old(model), model, h) && peak == Max(old(peak), |Busy(model, 0)|)
      ensures h == HANDLE_NULL ==> SameBusy(old(model), model) && peak == old(peak) && old(counter) >= MAX_ARENAS
      ensures Serves(old(MemoryBooks()), MemoryBooks(), h)
    {
      BooksAreMemory();
      ghost var newPeak := AllocPlan(model, peak, junkTop, junk);
      RaisePeak(newPeak);
      h := AllocByBooks(junkTop, junk);
    }

    /** Links slot `h` to the top that was seen. */
    method LinkTo(h: U32, seen: Word, ghost m: State, ghost w: U32)
      requires Mirrors() && FreeReady(m, h) && model == InFlight(m, h, w, PushLink(h, seen))
      requires seen == m.arenas[ArenaOf(h)].top
      modifies this`model, repr
      ensures Mirrors() && model == InFlight(m, h, seen.lo, PushTry(h, seen))
    {
      PushSteps(m, h, w);
      table[ArenaOf(h)].words[SlotOf(h)] := seen.lo;
      model := DoStoreLink(model, 0);
    }

    /** The compare-and-swap on the top; a weak one may fail for no reason. */
    method TryTop(h: U32, seen: Word, spurious: bool, ghost m: State) returns (done: bool, current: Word)
      requires Mirrors() && FreeReady(m, h) && model == InFlight(m, h, seen.lo, PushTry(h, seen))
      requires seen == m.arenas[ArenaOf(h)].top
      modifies this`model, repr
      ensures Mirrors() && model == if done then Freed(m, h) else InFlight(m, h, seen.lo, PushLink(h, current))
      ensures done == !spurious && (!done ==> current == seen)
    {
      PushSteps(m, h, seen.lo);
      var arena := table[ArenaOf(h)];
      current := arena.top;
      done := current == seen && !spurious;
      if done {
        arena.top := Word(Wrap(seen.hi + 1), h);
      }
      model := DoTryPush(model, 0, spurious);
    }

    /** `free_slot`, as steps of the machine: the compare-and-swap fails `spurious` times for no reason. */
    method FreeSteps(slot: U32, spurious: nat)
      requires Mirrors() && FreeReady(model, slot)
      modifies this`model, repr
      ensures Mirrors() && model == Freed(old(model), slot)
    {
      ghost var m := model;
      var h := table[ArenaOf(slot)].words[SlotOf(slot)];
      var seen := table[ArenaOf(h)].top;
      PushSteps(m, h, h);
      ghost var w := h;
      model := InFlight(m, h, h, PushLink(h, seen));
      var left: nat, done := spurious, false;
      while !done
        invariant Mirrors()
        invariant model == if done then Freed(m, h) else InFlight(m, h, w, PushLink(h, seen))
        invariant !done ==> seen == m.arenas[ArenaOf(h)].top
        decreases left, !done
      {
        LinkTo(h, seen, m, w);
        w := seen.lo;
        done, seen := TryTop(h, seen, left > 0, m);
        left := if left > 0 then left - 1 else 0;
      }
    }

    /** Frees an allocated slot: it is the top of its arena's shared stack, one deeper than before, and
        nothing else changed hands. */
    method FreeSlot(slot: U32, spurious: nat)
      requires Valid() && model.pcs[0].Idle? && IsBusy(model, ArenaOf(slot), SlotOf(slot))
      modifies this`model, repr
      ensures Valid() && model.pcs[0].Idle? && model.tls == old(model.tls)
      ensures FreeReady(old(model), slot) && model == Freed(old(model), slot) && HandsOut(model, old(model), slot)
    {
      FreeCall(model, peak, slot);
      FreeSteps(slot, spurious);
    }

    /** Gives back fully free arenas from the end of the active ones, until one is in use. */
    method ReclaimFromEnd(junkTop: nat -> Word, junk: nat -> seq<U32>)
      requires Mirrors() && ExitReady(model) && model.pcs[0] == ExitCheck(0) && forall n :: |junk(n)| == size
      modifies this`model, this`active, repr
      ensures Mirrors() && model == Dropped(old(model), junkTop, junk)
    {
      var busy := false;
      while active > 0 && !busy
        invariant Mirrors() && ExitReady(model) && model.pcs[0] == ExitCheck(0)
        invariant Dropped(model, junkTop, junk) == Dropped(old(model), junkTop, junk)
        invariant busy ==> !LastEmpty(model)
        decreases active, !busy
      {
        LastIsThere(model);
        var n := active;
        if LastEmpty(model) { DropGoesOn(model, junkTop, junk); }
        var reclaimed := ReclaimLastArenaIfEmpty(junkTop(n), junk(n));
        busy := !reclaimed;
      }
    }

    /** Gives back what is free and stores that the thread id is free. */
    method ExitSteps(junkTop: nat -> Word, junk: nat -> seq<U32>)
      requires Mirrors() && ExitReady(model) && model.tls[0] == Some(0) && forall n :: |junk(n)| == size
      modifies this`model, this`active, this`used, repr
      ensures Mirrors() && model == Exited(old(model), junkTop, junk)
    {
      ghost var m := model;
      model := DoExit(m, 0);
      ExitStays(m, model);
      ReclaimFromEnd(junkTop, junk);
      used := false;
      model := Exited(m, junkTop, junk);
    }

    /** `tls_destructor`: no allocated slot is lost, the context is released, and exactly the fully free
        arenas at the end of the active ones are given back, so that the last active arena, if one is
        left, is in use. */
    method TlsDestructor(junkTop: nat -> Word, junk: nat -> seq<U32>)
      requires Valid() && model.pcs[0].Idle? && model.tls[0] == Some(0) && forall n :: |junk(n)| == size
      modifies this`model, this`active, this`used, repr
      ensures Valid() && model.pcs[0].Idle? && model.tls[0] == None && !used
      ensures SameBusy(old(model), model)
      ensures ExitReady(model) && !LastEmpty(model)
      ensures Leaves(old(MemoryBooks()), MemoryBooks())
    {
      ExitCall(model, peak, junkTop, junk);
      ExitLeaves(model, peak, junkTop, junk);
      BooksAreMemory();
      ExitSteps(junkTop, junk);
      BooksAreMemory();
    }

    /** The arena bound, for the arrays: between calls, the slots of all active arenas but one are fewer
        than the peak number of slots allocated at once. */
    lemma Frugal()
      requires Valid() && model.pcs[0].Idle? && active > 0
      ensures (active - 1) * (size - 1) < peak
    {
      BetweenAllocations(model, 0, peak);
    }

    /** A registered thread with a new context and no arena. */
    constructor (slots: nat)
      requires 2 <= slots < SLOT_SPAN
      ensures Valid() && size == slots && model == Started(slots) && peak == 0 && fresh(repr)
    {
      size := slots;
      table := new MemoryArena?[MAX_ARENAS](_ => null);
      counter, active, capacity, localTop, count, used := 0, 0, 0, HANDLE_NULL, 0, true;
      owned := new MemoryArena?[0];
      indices := new U32[0];
      new;
      repr := {table, owned, indices};
      model, peak := Started(slots), 0;
      StartedSound(slots);
    }
  }
}
