module TaggedFreeListTheorems {
  // What holds over whole runs of the tagged free list: the sixteen-update bound is enough, and
  // one update more is not.

  import opened TaggedWords
  import opened TaggedFreeList
  import opened TaggedFreeListInvariant

  ghost predicate IsRun(states: seq<State>, events: seq<Event>) {
    && |states| == |events| + 1
    && (exists align: bv64, threads: nat :: states[0] == Init(align, threads))
    && forall k {:trigger Enabled(states[k], events[k])} :: 0 <= k < |events| ==>
      Enabled(states[k], events[k]) && states[k + 1] == Apply(states[k], events[k])
  }

  // Exactly which steps and runs keep the list intact.

  lemma StalePopBreaks(s: State, t: nat)
    requires Inv(s) && Enabled(s, TryPop(t, false)) && StalePop(s, TryPop(t, false))
    ensures !Intact(DoTryPop(s, t, false))
  {
    var r := DoTryPop(s, t, false);
    assert PcOk(s, t);
    TopBlock(s);
    NewHead(s.head, s.pcs[t].link);
    assert Top(r.list) == s.next[PtrFrom(s.head)];
  }

  /** A step keeps the list intact, with each block on it or held, if and only if it is not a stale pop. */
  lemma StepSafeExactly(s: State, e: Event)
    requires Inv(s) && Enabled(s, e)
    ensures Intact(Apply(s, e)) <==> !StalePop(s, e)
    ensures Intact(Apply(s, e)) <==> Inv(Apply(s, e))
  {
    if StalePop(s, e) {
      StalePopBreaks(s, e.t);
    } else {
      StepKeeps(s, e);
    }
  }

  lemma {:induction false} IntactRunInv(states: seq<State>, events: seq<Event>, k: nat)
    requires IsRun(states, events) && k < |states|
    requires || (forall j :: 0 <= j <= k ==> Intact(states[j]))
             || (forall j :: 0 <= j < k ==> !StalePop(states[j], events[j]))
    ensures Inv(states[k])
    decreases k
  {
    if k == 0 {
      var align: bv64, threads: nat :| states[0] == Init(align, threads);
      InitInv(align, threads);
    } else {
      IntactRunInv(states, events, k - 1);
      StepSafeExactly(states[k - 1], events[k - 1]);
      assert (forall j :: 0 <= j <= k ==> Intact(states[j])) ==> Intact(states[k]);
    }
  }

  /** The list is intact in every state of a run if and only if no step of the run is a stale pop. */
  lemma RunSafeExactly(states: seq<State>, events: seq<Event>)
    requires IsRun(states, events)
    ensures (forall k :: 0 <= k < |states| ==> Intact(states[k])) <==>
            (forall k :: 0 <= k < |events| ==> !StalePop(states[k], events[k]))
  {
    if forall k :: 0 <= k < |states| ==> Intact(states[k]) {
      forall k | 0 <= k < |events| ensures !StalePop(states[k], events[k]) {
        IntactRunInv(states, events, k);
        assert Intact(states[k + 1]);
        StepSafeExactly(states[k], events[k]);
      }
    }
    if forall k :: 0 <= k < |events| ==> !StalePop(states[k], events[k]) {
      forall k | 0 <= k < |states| ensures Intact(states[k]) { IntactRunInv(states, events, k); }
    }
  }

  // The same, of memory alone.

  /** Read from the head through the links in memory, the list is `l`, bottom first, ending at NULL, and the
      blocks on it are exactly those that nobody holds. */
  ghost predicate Spells(s: State, l: seq<Word>) {
    && PtrFrom(s.head) == Top(l)
    && (forall p :: 0 <= p < |l| ==> l[p] in s.next && l[p] != NULL && s.next[l[p]] == Below(l, p))
    && (forall b :: b in s.next ==> (b in l <==> b !in s.holders))
  }

  /** Memory spells out some list of exactly the blocks that nobody holds. */
  ghost predicate MemoryIntact(s: State) {
    exists l :: Spells(s, l)
  }

  lemma IntactSpells(s: State)
    requires Intact(s)
    ensures Spells(s, s.list)
  {
    forall p | 0 <= p < |s.list|
      ensures s.list[p] in s.next && s.list[p] != NULL && s.list[p] !in s.holders
      ensures s.next[s.list[p]] == Below(s.list, p)
    {
      assert LinkOk(s, p);
    }
  }

  /** Memory links `l` downwards to NULL, out of blocks of the history list. */
  ghost predicate LinkedPart(s: State, l: seq<Word>) {
    forall p :: 0 <= p < |l| ==> l[p] in s.list && l[p] in s.next && s.next[l[p]] == Below(l, p)
  }

  /** The link of a block determines its place. */
  lemma LinkDeterminesPlace(list: seq<Word>, p: nat, q: nat)
    requires Distinct(list) && NULL !in list && p < |list| && q <= |list|
    requires Below(list, p) == if q == 0 then NULL else list[q - 1]
    ensures p == q
  {
    if p > 0 { assert list[p - 1] in list; }
    if q > 0 { assert list[q - 1] in list; }
  }

  lemma NoNullListed(s: State)
    requires ListOk(s)
    ensures NULL !in s.list
  {
    forall p | 0 <= p < |s.list| ensures s.list[p] != NULL { assert LinkOk(s, p); }
  }

  /** Links determine a list from its bottom: such an `l` is the lower part of the history list. */
  lemma {:induction false} SameFromBelow(s: State, l: seq<Word>, q: nat)
    requires ListOk(s) && q < |l| && LinkedPart(s, l)
    ensures q < |s.list| && l[q] == s.list[q]
    decreases q
  {
    if q > 0 { SameFromBelow(s, l, q - 1); }
    var p :| 0 <= p < |s.list| && s.list[p] == l[q];
    assert LinkOk(s, p);
    NoNullListed(s);
    LinkDeterminesPlace(s.list, p, q);
  }

  /** When the top block becomes held and nothing else changes, the blocks that nobody holds are the others on
      the list. */
  lemma FreeBelowTop(s: State, r: State, t: nat, l: seq<Word>)
    requires Intact(s) && s.list != [] && r.next == s.next && r.holders == s.holders[Top(s.list) := t] && Spells(r, l)
    ensures LinkedPart(s, l) && Top(s.list) !in l && (|s.list| > 1 ==> s.list[|s.list| - 2] in l)
  {
    assert LinkOk(s, |s.list| - 1);
    if |s.list| > 1 { assert LinkOk(s, |s.list| - 2); }
    forall p | 0 <= p < |l| ensures l[p] in s.list { assert l[p] in l; }
  }

  /** A list that memory links out of the others on the list, up to the second block, starts at the second block. */
  lemma StartsAtSecond(s: State, l: seq<Word>)
    requires Intact(s) && s.list != [] && LinkedPart(s, l)
    requires Top(s.list) !in l && (|s.list| > 1 ==> s.list[|s.list| - 2] in l)
    ensures Top(l) == Below(s.list, |s.list| - 1)
  {
    var n := |s.list|;
    forall q | 0 <= q < |l| ensures q < n && l[q] == s.list[q] { SameFromBelow(s, l, q); }
    assert |l| < n;
    if n > 1 {
      var p :| 0 <= p < |l| && l[p] == s.list[n - 2];
      assert s.list[p] == s.list[n - 2];
    }
  }

  /** After a stale pop, memory spells out no list of the blocks that nobody holds. */
  lemma StaleSpellsNothing(s: State, t: nat, l: seq<Word>)
    requires Inv(s) && Enabled(s, TryPop(t, false)) && StalePop(s, TryPop(t, false))
    ensures !Spells(DoTryPop(s, t, false), l)
  {
    assert PcOk(s, t);
    TopBlock(s);
    NewHead(s.head, s.pcs[t].link);
    if Spells(DoTryPop(s, t, false), l) {
      FreeBelowTop(s, DoTryPop(s, t, false), t, l);
      StartsAtSecond(s, l);
    }
  }

  /** A step leaves memory with a list of exactly the blocks that nobody holds if and only if it is not a stale pop. */
  lemma MemorySafeExactly(s: State, e: Event)
    requires Inv(s) && Enabled(s, e)
    ensures MemoryIntact(Apply(s, e)) <==> !StalePop(s, e)
  {
    if StalePop(s, e) {
      forall l ensures !Spells(Apply(s, e), l) { StaleSpellsNothing(s, e.t, l); }
    } else {
      StepKeeps(s, e);
      IntactSpells(Apply(s, e));
    }
  }

  lemma {:induction false} MemoryRunInv(states: seq<State>, events: seq<Event>, k: nat)
    requires IsRun(states, events) && k < |states|
    requires forall j :: 0 <= j <= k ==> MemoryIntact(states[j])
    ensures Inv(states[k])
    decreases k
  {
    if k == 0 {
      var align: bv64, threads: nat :| states[0] == Init(align, threads);
      InitInv(align, threads);
    } else {
      MemoryRunInv(states, events, k - 1);
      assert MemoryIntact(states[k]);
      MemorySafeExactly(states[k - 1], events[k - 1]);
      StepKeeps(states[k - 1], events[k - 1]);
    }
  }

  /** In every state of a run memory spells out a list of exactly the blocks that nobody holds, if and only if
      no step of the run is a stale pop. */
  lemma RunMemorySafeExactly(states: seq<State>, events: seq<Event>)
    requires IsRun(states, events)
    ensures (forall k :: 0 <= k < |states| ==> MemoryIntact(states[k])) <==>
            (forall k :: 0 <= k < |events| ==> !StalePop(states[k], events[k]))
  {
    if forall k :: 0 <= k < |states| ==> MemoryIntact(states[k]) {
      forall k | 0 <= k < |events| ensures !StalePop(states[k], events[k]) {
        MemoryRunInv(states, events, k);
        assert MemoryIntact(states[k + 1]);
        MemorySafeExactly(states[k], events[k]);
      }
    }
    if forall k :: 0 <= k < |events| ==> !StalePop(states[k], events[k]) {
      forall k | 0 <= k < |states| ensures MemoryIntact(states[k]) {
        IntactRunInv(states, events, k);
        IntactSpells(states[k]);
      }
    }
  }

  // What the tag is for.

  /** A successful compare-and-swap with fewer than sixteen updates since the read saw no update at all. */
  lemma HeadUnchanged(s: State, t: nat, spurious: bool)
    requires Good(s) && t < |s.pcs| && s.pcs[t].AllocTry? && Matches(s, t, spurious)
    ensures (s.updates - s.pcs[t].start) % 16 == 0
    ensures s.updates - s.pcs[t].start < 16 ==> s.pcs[t].start == s.updates
  {
    assert PcOk(s, t) && TagSeen(s.pcs[t]);
    SameTag(s.pcs[t].start, s.updates);
  }

  /** If the step pops, fewer than sixteen head updates happened since its head was read. */
  predicate Timely(s: State, e: Event)
    requires Enabled(s, e)
  {
    e.TryPop? && Matches(s, e.t, e.spurious) ==> s.updates - s.pcs[e.t].start < 16
  }

  /** A compare-and-swap that succeeds in time saw the head unchanged throughout, and so the link too. */
  lemma TimelyIsNotStale(s: State, e: Event)
    requires Good(s) && Enabled(s, e) && Timely(s, e)
    ensures PopsPresentLink(s, e) && !StalePop(s, e)
    ensures e.TryPop? && Matches(s, e.t, e.spurious) ==> s.pcs[e.t].start == s.updates
  {
    if e.TryPop? && Matches(s, e.t, e.spurious) {
      HeadUnchanged(s, e.t, e.spurious);
      assert PcOk(s, e.t);
    }
  }

  /** In a run whose pops are all timely, every state is intact. */
  lemma {:induction false} TimelyRunInv(states: seq<State>, events: seq<Event>, k: nat)
    requires IsRun(states, events) && k < |states|
    requires forall j :: 0 <= j < k ==> Timely(states[j], events[j])
    ensures Good(states[k])
    decreases k
  {
    if k == 0 {
      var align: bv64, threads: nat :| states[0] == Init(align, threads);
      InitGood(align, threads);
    } else {
      TimelyRunInv(states, events, k - 1);
      TimelyIsNotStale(states[k - 1], events[k - 1]);
      GoodKeeps(states[k - 1], events[k - 1]);
    }
  }

  /** The block reached from the head after `n` links, or NULL when the list ends before. */
  function Walk(s: State, n: nat): Word {
    if n == 0 then PtrFrom(s.head)
    else
      var p := Walk(s, n - 1);
      if p in s.next then s.next[p] else NULL
  }

  lemma {:induction false} WalkSpellsList(s: State, n: nat)
    requires Inv(s) && n <= |s.list|
    ensures Walk(s, n) == if n < |s.list| then s.list[|s.list| - 1 - n] else NULL
  {
    if n > 0 {
      WalkSpellsList(s, n - 1);
      assert LinkOk(s, |s.list| - n);
    }
  }

  /** Block `b` is met exactly once on the way from the head to the end of the list. */
  ghost predicate MetOnce(s: State, b: Word) {
    exists n: nat :: n < |s.list| && Walk(s, n) == b && forall m: nat :: m < |s.list| && Walk(s, m) == b ==> m == n
  }

  lemma ListedMetOnce(s: State, b: Word)
    requires Inv(s) && b in s.list
    ensures MetOnce(s, b)
  {
    var p :| 0 <= p < |s.list| && s.list[p] == b;
    WalkSpellsList(s, |s.list| - 1 - p);
    forall m: nat | m < |s.list| && Walk(s, m) == b ensures m == |s.list| - 1 - p {
      WalkSpellsList(s, m);
    }
  }

  lemma HeldNotMet(s: State, b: Word, n: nat)
    requires Inv(s) && b in s.holders && n < |s.list|
    ensures Walk(s, n) != b
  {
    WalkSpellsList(s, n);
    assert LinkOk(s, |s.list| - 1 - n);
  }

  /** In memory, the list is acyclic and ends at NULL, and each block ever obtained is either met
      exactly once on it or held by exactly one caller. */
  lemma EachBlockInOnePlace(s: State, b: Word)
    requires Inv(s) && b in s.next
    ensures Walk(s, |s.list|) == NULL
    ensures b in s.holders <==> !MetOnce(s, b)
  {
    WalkSpellsList(s, |s.list|);
    if b in s.holders {
      forall n: nat | n < |s.list| ensures Walk(s, n) != b { HeldNotMet(s, b, n); }
    } else {
      ListedMetOnce(s, b);
    }
  }

  // Sixteen updates between the read and the compare-and-swap.

  predicate CanRun(s: State, events: seq<Event>)
    decreases |events|
  {
    events != [] ==> Enabled(s, events[0]) && CanRun(Apply(s, events[0]), events[1..])
  }

  function After(s: State, events: seq<Event>): State
    requires CanRun(s, events)
    decreases |events|
  {
    if events == [] then s else After(Apply(s, events[0]), events[1..])
  }

  /** Events `events` lead from `s` to `r`. */
  predicate Leads(s: State, events: seq<Event>, r: State) {
    CanRun(s, events) && After(s, events) == r
  }

  lemma {:induction false} Compose(s: State, first: seq<Event>, m: State, second: seq<Event>, r: State)
    requires Leads(s, first, m) && Leads(m, second, r)
    ensures Leads(s, first + second, r)
    decreases |first|
  {
    if first == [] {
      assert first + second == second;
    } else {
      assert (first + second)[0] == first[0] && (first + second)[1..] == first[1..] + second;
      Compose(Apply(s, first[0]), first[1..], m, second, r);
    }
  }

  lemma OneStep(s: State, e: Event)
    requires Enabled(s, e)
    ensures Leads(s, [e], Apply(s, e))
  {
    assert CanRun(Apply(s, e), []);
    assert [e][1..] == [];
  }

  function PopEvents(u: nat): seq<Event> {
    [LoadForAlloc(u), ReadLink(u), TryPop(u, false)]
  }

  function PushEvents(u: nat, block: Word): seq<Event> {
    [LoadForFree(u, block), StoreLink(u), TryPush(u, false)]
  }

  /** The state after an undisturbed `alloc` of the top block. */
  function Popped(s: State, u: nat): State
    requires s.list != []
  {
    var n := |s.list|;
    s.(head := Pack(Below(s.list, n - 1), TagFrom(s.head) + 1), holders := s.holders[Top(s.list) := u],
       list := s.list[..n - 1], updates := s.updates + 1)
  }

  /** The state after an undisturbed `free`. */
  function Pushed(s: State, block: Word): State {
    s.(head := Pack(block, TagFrom(s.head) + 1), next := s.next[block := Top(s.list)],
       holders := s.holders - {block}, list := s.list + [block], updates := s.updates + 1)
  }

  lemma RunThree(s: State, e0: Event, e1: Event, e2: Event)
    requires Enabled(s, e0) && Enabled(Apply(s, e0), e1) && Enabled(Apply(Apply(s, e0), e1), e2)
    ensures Leads(s, [e0, e1, e2], Apply(Apply(Apply(s, e0), e1), e2))
  {
    var s1 := Apply(s, e0);
    var s2 := Apply(s1, e1);
    OneStep(s2, e2);
    assert [e0, e1, e2][1..] == [e1, e2] && [e1, e2][1..] == [e2];
    assert Leads(s1, [e1, e2], Apply(s2, e2));
  }

  lemma PopSteps(s: State, u: nat)
    requires IsIdle(s, u) && s.list != [] && PtrFrom(s.head) == Top(s.list) != NULL
    requires Top(s.list) in s.next && s.next[Top(s.list)] == Below(s.list, |s.list| - 1)
    ensures Enabled(s, LoadForAlloc(u)) && Enabled(Apply(s, LoadForAlloc(u)), ReadLink(u))
    ensures Apply(Apply(Apply(s, LoadForAlloc(u)), ReadLink(u)), TryPop(u, false)) == Popped(s, u)
  {
    var r := Apply(Apply(Apply(s, LoadForAlloc(u)), ReadLink(u)), TryPop(u, false));
    assert r.pcs == s.pcs;
  }

  lemma PopRun(s: State, u: nat)
    requires Good(s) && IsIdle(s, u) && s.list != []
    ensures Leads(s, PopEvents(u), Popped(s, u)) && Good(Popped(s, u))
  {
    assert LinkOk(s, |s.list| - 1);
    PopSteps(s, u);
    var s1 := Apply(s, LoadForAlloc(u));
    var s2 := Apply(s1, ReadLink(u));
    RunThree(s, LoadForAlloc(u), ReadLink(u), TryPop(u, false));
    GoodKeeps(s, LoadForAlloc(u));
    GoodKeeps(s1, ReadLink(u));
    GoodKeeps(s2, TryPop(u, false));
  }

  lemma PushRun(s: State, u: nat, block: Word)
    requires Good(s) && IsIdle(s, u) && Holds(s, u, block)
    ensures Leads(s, PushEvents(u, block), Pushed(s, block)) && Good(Pushed(s, block))
  {
    assert BlockOk(s, block);
    var s1 := Apply(s, LoadForFree(u, block));
    var s2 := Apply(s1, StoreLink(u));
    RunThree(s, LoadForFree(u, block), StoreLink(u), TryPush(u, false));
    var r := Apply(s2, TryPush(u, false));
    assert r.pcs == s.pcs;
    assert r == Pushed(s, block);
    GoodKeeps(s, LoadForFree(u, block));
    GoodKeeps(s1, StoreLink(u));
    GoodKeeps(s2, TryPush(u, false));
  }

  /** The state after `d` updates that leave the list as it was. */
  function Advanced(s: State, d: nat): State {
    s.(head := Pack(Top(s.list), NthTag(s.updates + d)), updates := s.updates + d)
  }

  function CycleEvents(u: nat, block: Word, k: nat): seq<Event> {
    if k == 0 then [] else PopEvents(u) + PushEvents(u, block) + CycleEvents(u, block, k - 1)
  }

  lemma PopThenPush(s: State, u: nat)
    requires s.list != [] && TagFrom(s.head) == NthTag(s.updates) && Top(s.list) !in s.holders
    requires Top(s.list) in s.next && s.next[Top(s.list)] == Below(s.list, |s.list| - 1)
    requires Aligned(Top(s.list)) && Aligned(s.next[Top(s.list)])
    ensures Pushed(Popped(s, u), Top(s.list)) == Advanced(s, 2)
    ensures Holds(Popped(s, u), u, Top(s.list))
  {
    var block := Top(s.list);
    var r := Pushed(Popped(s, u), block);
    assert r.list == s.list;
    assert r.next == s.next;
    assert r.holders == s.holders;
    assert NthTag(s.updates + 2) == NthTag(s.updates) + 1 + 1;
  }

  lemma OneCycle(s: State, u: nat)
    requires Good(s) && IsIdle(s, u) && s.list != []
    ensures Leads(s, PopEvents(u) + PushEvents(u, Top(s.list)), Advanced(s, 2)) && Good(Advanced(s, 2))
  {
    var block := Top(s.list);
    assert LinkOk(s, |s.list| - 1);
    TopBlock(s);
    PopThenPush(s, u);
    PopRun(s, u);
    PushRun(Popped(s, u), u, block);
    Compose(s, PopEvents(u), Popped(s, u), PushEvents(u, block), Advanced(s, 2));
  }

  /** Popping and pushing the top block `k` times changes nothing but the tag and the count. */
  lemma {:induction false} Cycles(s: State, u: nat, k: nat)
    requires Good(s) && IsIdle(s, u) && s.list != []
    ensures Leads(s, CycleEvents(u, Top(s.list), k), Advanced(s, 2 * k)) && Good(Advanced(s, 2 * k))
    decreases k
  {
    if k == 0 {
      assert LinkOk(s, |s.list| - 1);
      assert s.head == Pack(Top(s.list), NthTag(s.updates));
    } else {
      var block := Top(s.list);
      OneCycle(s, u);
      Cycles(Advanced(s, 2), u, k - 1);
      Compose(s, PopEvents(u) + PushEvents(u, block), Advanced(s, 2), CycleEvents(u, block, k - 1), Advanced(s, 2 * k));
    }
  }

  /** The sixteen updates of `u`: take three blocks, return the first, and cycle it six times. */
  function SixteenUpdates(u: nat, block: Word): seq<Event> {
    ThreePops(u) + (PushEvents(u, block) + CycleEvents(u, block, 6))
  }

  function ThreePops(u: nat): seq<Event> {
    PopEvents(u) + (PopEvents(u) + PopEvents(u))
  }

  /** The state after three undisturbed pops. */
  function ThreePopped(s: State, u: nat): State
    requires |s.list| >= 3
  {
    Popped(Popped(Popped(s, u), u), u)
  }

  lemma ThreePopsRun(s: State, u: nat)
    requires Good(s) && IsIdle(s, u) && |s.list| >= 3
    ensures Leads(s, ThreePops(u), ThreePopped(s, u)) && Good(ThreePopped(s, u))
  {
    var s1 := Popped(s, u);
    var s2 := Popped(s1, u);
    var s3 := Popped(s2, u);
    PopRun(s, u);
    PopRun(s1, u);
    PopRun(s2, u);
    Compose(s1, PopEvents(u), s2, PopEvents(u), s3);
    Compose(s, PopEvents(u), s1, PopEvents(u) + PopEvents(u), s3);
  }

  lemma ThreePoppedFacts(s: State, u: nat)
    requires Good(s) && |s.list| >= 3
    ensures Holds(ThreePopped(s, u), u, Top(s.list)) && Holds(ThreePopped(s, u), u, s.list[|s.list| - 2])
    ensures ThreePopped(s, u).pcs == s.pcs && ThreePopped(s, u).updates == s.updates + 3
    ensures Top(s.list) != s.list[|s.list| - 2] && BlockOk(s, Top(s.list)) && BlockOk(s, s.list[|s.list| - 2])
    ensures s.head == Pack(Top(s.list), NthTag(s.updates))
  {
    var n := |s.list|;
    assert LinkOk(s, n - 1) && LinkOk(s, n - 2);
    assert Top(Popped(s, u).list) == s.list[n - 2];
    assert Top(Popped(Popped(s, u), u).list) == s.list[n - 3];
  }

  /** The state after the sixteen updates. */
  function SixteenLater(s: State, u: nat): State
    requires |s.list| >= 3
  {
    Advanced(Pushed(ThreePopped(s, u), Top(s.list)), 12)
  }

  lemma SixteenRun(s: State, u: nat)
    requires Good(s) && IsIdle(s, u) && |s.list| >= 3
    ensures Leads(s, SixteenUpdates(u, Top(s.list)), SixteenLater(s, u))
  {
    var block := Top(s.list);
    var s3 := ThreePopped(s, u);
    var s4 := Pushed(s3, block);
    ThreePopsRun(s, u);
    ThreePoppedFacts(s, u);
    PushRun(s3, u, block);
    Cycles(s4, u, 6);
    Compose(s3, PushEvents(u, block), s4, CycleEvents(u, block, 6), SixteenLater(s, u));
    Compose(s, ThreePops(u), s3, PushEvents(u, block) + CycleEvents(u, block, 6), SixteenLater(s, u));
  }

  /** Sixteen updates later the head word is the same, but the second block is held. */
  lemma SixteenLaterFacts(s: State, u: nat)
    requires Good(s) && |s.list| >= 3
    ensures
      var r := SixteenLater(s, u);
      r.head == s.head && r.updates == s.updates + 16 && r.pcs == s.pcs && Holds(r, u, s.list[|s.list| - 2])
  {
    ThreePoppedFacts(s, u);
    SameTag(s.updates, s.updates + 16);
  }

  function StaleRun(t: nat, u: nat, block: Word): seq<Event> {
    [LoadForAlloc(t)] + [ReadLink(t)] + SixteenUpdates(u, block)
  }

  /** A pop of `t` that succeeds now makes the stale link `below` the head. */
  lemma FinalPop(s: State, t: nat, u: nat, block: Word, below: Word)
    requires t < |s.pcs| && s.pcs[t].AllocTry? && s.pcs[t].head == s.head && s.pcs[t].link == below
    requires PtrFrom(s.head) == block && block in s.next && Aligned(below) && below != block && Holds(s, u, below)
    ensures
      var r := Apply(s, TryPop(t, false));
      Holds(r, t, block) && PtrFrom(r.head) == below && Holds(r, u, below) && r.updates == s.updates + 1
  {
  }

  /** The state after `t` has read the head and the link below it. */
  function HasRead(s: State, t: nat): State
    requires t < |s.pcs| && |s.list| >= 2
  {
    Goto(s, t, AllocTry(s.head, s.list[|s.list| - 2], s.updates))
  }

  lemma TwoReads(s: State, t: nat)
    requires Good(s) && IsIdle(s, t) && |s.list| >= 2
    ensures Good(HasRead(s, t)) && Leads(s, [LoadForAlloc(t)] + [ReadLink(t)], HasRead(s, t))
  {
    assert LinkOk(s, |s.list| - 1);
    var s1 := Apply(s, LoadForAlloc(t));
    GoodKeeps(s, LoadForAlloc(t));
    GoodKeeps(s1, ReadLink(t));
    var s2 := Apply(s1, ReadLink(t));
    assert s2.pcs == HasRead(s, t).pcs;
    OneStep(s, LoadForAlloc(t));
    OneStep(s1, ReadLink(t));
    Compose(s, [LoadForAlloc(t)], s1, [ReadLink(t)], s2);
  }

  /** What the compare-and-swap of `t` does sixteen updates after its reads. */
  lemma LateState(s: State, t: nat, u: nat)
    requires t < |s.pcs| && |s.list| >= 3 && Good(HasRead(s, t))
    ensures
      var late := SixteenLater(HasRead(s, t), u);
      Enabled(late, TryPop(t, false)) &&
      var r := Apply(late, TryPop(t, false));
      && Holds(r, t, Top(s.list)) && Holds(r, u, PtrFrom(r.head))
      && PtrFrom(r.head) == s.list[|s.list| - 2] != NULL && r.updates == s.updates + 17
  {
    var s2 := HasRead(s, t);
    SixteenLaterFacts(s2, u);
    ThreePoppedFacts(s2, u);
    FinalPop(SixteenLater(s2, u), t, u, Top(s.list), s.list[|s.list| - 2]);
  }

  lemma StaleRunLeads(s: State, t: nat, u: nat)
    requires Good(s) && t != u && IsIdle(s, t) && IsIdle(s, u) && |s.list| >= 3
    ensures Leads(s, StaleRun(t, u, Top(s.list)), SixteenLater(HasRead(s, t), u))
  {
    TwoReads(s, t);
    SixteenRun(HasRead(s, t), u);
    var read := HasRead(s, t);
    Compose(s, [LoadForAlloc(t)] + [ReadLink(t)], read, SixteenUpdates(u, Top(s.list)), SixteenLater(read, u));
  }

  /** One update more than the bound allows is too many, from every intact state with three free blocks:
      the pop of `t` succeeds sixteen updates after its read and leaves a held block as the head. */
  lemma SixteenUpdatesBreak(s: State, t: nat, u: nat) returns (r: State)
    requires Good(s) && t != u && IsIdle(s, t) && IsIdle(s, u) && |s.list| >= 3
    ensures Leads(s, StaleRun(t, u, Top(s.list)) + [TryPop(t, false)], r) && r.updates == s.updates + 17
    ensures Holds(r, t, Top(s.list)) && Holds(r, u, PtrFrom(r.head)) && !Intact(r)
  {
    TwoReads(s, t);
    LateState(s, t, u);
    var late := SixteenLater(HasRead(s, t), u);
    r := Apply(late, TryPop(t, false));
    StaleRunLeads(s, t, u);
    OneStep(late, TryPop(t, false));
    Compose(s, StaleRun(t, u, Top(s.list)), late, [TryPop(t, false)], r);
    HeldHeadBreaks(r);
  }

  lemma HeldHeadBreaks(s: State)
    requires PtrFrom(s.head) in s.holders && PtrFrom(s.head) != NULL
    ensures !Intact(s)
  {
    assert s.list != [] && ListOk(s) ==> LinkOk(s, |s.list| - 1);
  }

  function ObtainEvents(u: nat, block: Word): seq<Event> {
    [LoadForAlloc(u)] + [Obtain(u, block)]
  }

  /** The state after an `alloc` that found the list empty. */
  function Obtained(s: State, u: nat, block: Word): State {
    s.(next := s.next[block := NULL], holders := s.holders[block := u])
  }

  lemma ObtainRun(s: State, u: nat, block: Word)
    requires Good(s) && IsIdle(s, u) && s.list == [] && block != NULL && block !in s.next
    requires MultipleOf(Value(block), s.align)
    ensures Leads(s, ObtainEvents(u, block), Obtained(s, u, block)) && Good(Obtained(s, u, block))
  {
    var s1 := Apply(s, LoadForAlloc(u));
    GoodKeeps(s, LoadForAlloc(u));
    GoodKeeps(s1, Obtain(u, block));
    var s2 := Apply(s1, Obtain(u, block));
    assert s2.pcs == s.pcs;
    OneStep(s, LoadForAlloc(u));
    OneStep(s1, Obtain(u, block));
    Compose(s, [LoadForAlloc(u)], s1, [Obtain(u, block)], s2);
  }

  lemma LowZeroIsMultiple(upper: bv60)
    ensures MultipleOf(Value(Word(upper, 0)), 16)
  {
    JoinSplits(upper, 0);
  }

  /** Two threads and three blocks: the runs of `SixteenUpdatesBreak` start in states that a run reaches. */
  lemma ThreeFreeBlocks() returns (events: seq<Event>, r: State)
    ensures Leads(Init(16, 2), events, r) && Good(r) && |r.list| == 3 && IsIdle(r, 0) && IsIdle(r, 1)
  {
    var a, b, c := Word(1, 0), Word(2, 0), Word(3, 0);
    LowZeroIsMultiple(1);
    LowZeroIsMultiple(2);
    LowZeroIsMultiple(3);
    var s0 := Init(16, 2);
    InitGood(16, 2);
    ObtainRun(s0, 1, a);
    var s1 := Obtained(s0, 1, a);
    ObtainRun(s1, 1, b);
    var s2 := Obtained(s1, 1, b);
    ObtainRun(s2, 1, c);
    var s3 := Obtained(s2, 1, c);
    events := ObtainEvents(1, a) + (ObtainEvents(1, b) + ObtainEvents(1, c));
    Compose(s1, ObtainEvents(1, b), s2, ObtainEvents(1, c), s3);
    Compose(s0, ObtainEvents(1, a), s1, ObtainEvents(1, b) + ObtainEvents(1, c), s3);
    var pushes: seq<Event>;
    pushes, r := ThreePushes(s3, a, b, c);
    Compose(s0, events, s3, pushes, r);
    events := events + pushes;
  }

  lemma ThreePushes(s: State, a: Word, b: Word, c: Word) returns (events: seq<Event>, r: State)
    requires Good(s) && IsIdle(s, 1) && Holds(s, 1, a) && Holds(s, 1, b) && Holds(s, 1, c) && a != b && b != c && a != c
    ensures Leads(s, events, r) && Good(r) && |r.list| == |s.list| + 3 && r.pcs == s.pcs
  {
    PushRun(s, 1, a);
    var s1 := Pushed(s, a);
    PushRun(s1, 1, b);
    var s2 := Pushed(s1, b);
    PushRun(s2, 1, c);
    r := Pushed(s2, c);
    events := PushEvents(1, a) + (PushEvents(1, b) + PushEvents(1, c));
    Compose(s1, PushEvents(1, b), s2, PushEvents(1, c), r);
    Compose(s, PushEvents(1, a), s1, PushEvents(1, b) + PushEvents(1, c), r);
  }
}
