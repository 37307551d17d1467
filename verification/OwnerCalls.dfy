module OwnerCalls {
  // What whole calls of a context do when nobody disturbs them: an allocation, a free, a thread
  // exit, and the pops that follow the set-up of an arena.

  import opened Words
  import opened Handles
  import opened Allocator
  import opened AllocatorInvariant
  import AT = AllocatorTheorems
  import opened ArenaBound
  import opened OwnerModel

  /** A whole `alloc_slot`: it can be carried through, and either returns a slot that was free or
      has found every slot in use and no arena index left. */
  lemma AllocCall(s: State, peak: nat, junkTop: Word, junk: seq<U32>)
    requires Sound(s, peak) && s.pcs[0].Idle? && s.tls[0] == Some(0) && |junk| == s.size
    ensures AllocReady(s, junkTop, junk)
    ensures Handed(s, junkTop, junk) != HANDLE_NULL ==>
      Returned(s, Alloced(s, junkTop, junk), peak, Handed(s, junkTop, junk))
    ensures Handed(s, junkTop, junk) == HANDLE_NULL ==> Exhausted(s, Alloced(s, junkTop, junk), peak)
  {
    BeganKeeps(s, peak, junkTop, junk);
    var s1 := Began(s, junkTop, junk);
    PopKeeps(s1, peak);
    if LocalEmpty(s1.contexts[0].value) {
      var s2 := DoPop(s1, 0);
      SilentTrans(s, s1, s2);
      RefilledKeeps(s2, peak);
      var s3 := BeforeTake(s2);
      if s3.pcs[0].Idle? {
        ExhaustedAfter(s, s2, Refilled(s2), peak);
      } else {
        ReturnedAfter(s, s2, Refilled(s2), peak, s3.contexts[0].value.localTop);
      }
    } else {
      TakenKeeps(s1, peak);
      ReturnedAfter(s, s1, Taken(s1), peak, s1.contexts[0].value.localTop);
    }
  }

  /** A whole `free_slot`: the reverse of handing the slot out. */
  lemma FreeCall(s: State, peak: nat, h: U32)
    requires Sound(s, peak) && s.pcs[0].Idle? && IsBusy(s, ArenaOf(h), SlotOf(h))
    ensures FreeReady(s, h) && Sound(Freed(s, h), peak) && HandsOut(Freed(s, h), s, h)
    ensures |Busy(s, 0)| == |Busy(Freed(s, h), 0)| + 1
  {
    PushBeginKeeps(s, peak, h);
    assert ArenaOk(s, ArenaOf(h));
    AT.OverlaidWord(s, h);
    PushSteps(s, h, h);
    PushedKeeps(s, h, peak);
  }

  /** A whole `tls_destructor`: no allocated slot is lost, the context is given up, and the last
      active arena, if one is left, is in use. */
  lemma ExitCall(s: State, peak: nat, junkTop: nat -> Word, junk: nat -> seq<U32>)
    requires Sound(s, peak) && s.pcs[0].Idle? && s.tls[0] == Some(0) && forall n :: |junk(n)| == s.size
    ensures ExitReady(s)
    ensures var r := Exited(s, junkTop, junk);
      && Sound(r, peak) && SameBusy(s, r) && r.tls == [None] && r.used == [false] && r.pcs == [Idle]
      && ExitReady(r) && !LastEmpty(r)
  {
    BeginExitKeeps(s, peak);
    var s1 := DoExit(s, 0);
    ExitIsReady(s, peak);
    ExitIsReady(s1, peak);
    DroppedKeeps(s1, peak, junkTop, junk);
    var s2 := Dropped(s1, junkTop, junk);
    StoreKeeps(s2, peak);
    var r := Exited(s, junkTop, junk);
    ExitIsReady(r, peak);
    assert s2.contexts == r.contexts && s2.arenas == r.arenas && s2.size == r.size;
  }

  lemma StartedByRegistration(size: nat)
    requires 2 <= size < SLOT_SPAN
    ensures var s := Init(size, 1, 1);
      && Enabled(s, Register(0)) && Enabled(Apply(s, Register(0)), ScanTid(0))
      && var s2 := Apply(Apply(s, Register(0)), ScanTid(0));
        && Enabled(s2, TryTid(0)) && Enabled(Apply(s2, TryTid(0)), Adopt(0))
        && Apply(Apply(s2, TryTid(0)), Adopt(0)) == Started(size)
  {
    var s := Init(size, 1, 1);
    var s1 := Apply(s, Register(0));
    var s2 := Apply(s1, ScanTid(0));
    var s3 := Apply(s2, TryTid(0));
    assert s3.used == [true] && s3.owners == [Some(0)] && s3.contexts == [None] && s3.tls == [None];
  }

  // What a fresh chain yields.

  /** The link words of an arena and the local top. */
  datatype Local = Local(words: seq<U32>, top: U32)

  /** One `pop_local` on the memory of an arena: the handle it returns and what it leaves. */
  function PopMemory(m: Local): (U32, Local) {
    if m.top == HANDLE_NULL || SlotOf(m.top) == 0 || SlotOf(m.top) >= |m.words|
    then (HANDLE_NULL, m.(top := HANDLE_NULL))
    else (m.top, Local(m.words[SlotOf(m.top) := m.top], m.words[SlotOf(m.top)]))
  }

  /** The handles that `n` calls return. */
  function PopMany(m: Local, n: nat): seq<U32>
    decreases n
  {
    if n == 0 then [] else [PopMemory(m).0] + PopMany(PopMemory(m).1, n - 1)
  }

  /** On the machine, `pop_local` is this: on the arena of the local top, or on any when the chain is empty. */
  lemma PopIsPopMemory(s: State, words: seq<U32>)
    requires Single(s) && (s.pcs[0] == AllocPop(0) || s.pcs[0] == AllocLast(0)) && CanPop(s, 0)
    requires !LocalEmpty(s.contexts[0].value) ==> words == s.arenas[ArenaOf(s.contexts[0].value.localTop)].words
    ensures var top := s.contexts[0].value.localTop; var s' := DoPop(s, 0); var (h, m) := PopMemory(Local(words, top));
      && m.top == s'.contexts[0].value.localTop
      && if LocalEmpty(s.contexts[0].value) then h == HANDLE_NULL && m.words == words && s'.arenas == s.arenas
         else h == top && s'.pcs[0] == Got(h) && m.words == s'.arenas[ArenaOf(h)].words
  {
  }

  /** Slots 1 to `k` are linked downwards. */
  predicate LinkedDown(words: seq<U32>, a: nat, k: nat) {
    a < MAX_ARENAS && k < |words| < SLOT_SPAN && forall j :: 0 < j <= k ==> words[j] == HandleOf(a, j - 1)
  }

  lemma {:induction false} PopsDown(words: seq<U32>, a: nat, k: nat, i: nat)
    requires LinkedDown(words, a, k) && i <= k
    ensures |PopMany(Local(words, HandleOf(a, k)), k + 1)| == k + 1
    ensures PopMany(Local(words, HandleOf(a, k)), k + 1)[i] == if i < k then HandleOf(a, k - i) else HANDLE_NULL
    decreases k
  {
    HandleRoundTrip(a, k);
    var m := Local(words, HandleOf(a, k));
    if k > 0 {
      var rest := words[k := HandleOf(a, k)];
      assert PopMemory(m) == (HandleOf(a, k), Local(rest, HandleOf(a, k - 1)));
      PopsDown(rest, a, k - 1, if i == 0 then 0 else i - 1);
    } else {
      assert PopMany(PopMemory(m).1, 0) == [];
    }
  }

  /** After `setup_arena_stack`, repeated `pop_local` yields the handles of slots `size - 1` down to 1,
      each decoding to its slot of this arena and none of them HANDLE_NULL, and then HANDLE_NULL. */
  lemma FreshChainPops(a: nat, size: nat, i: nat)
    requires a < MAX_ARENAS && 2 <= size < SLOT_SPAN && i < size
    ensures var handles := PopMany(Local(FreshWords(a, size), HandleOf(a, size - 1)), size);
      && |handles| == size
      && (if i == size - 1 then handles[i] == HANDLE_NULL
          else handles[i] != HANDLE_NULL && ArenaOf(handles[i]) == a && SlotOf(handles[i]) == size - 1 - i)
  {
    PopsDown(FreshWords(a, size), a, size - 1, i);
    HandleRoundTrip(a, size - 1 - i);
  }
}
