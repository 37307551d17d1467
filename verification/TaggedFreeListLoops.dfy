module TaggedFreeListLoops {
  // `alloc` and `free` of the tagged free list as the code has them, run by one thread while
  // others go on.
  //
  // `rivals` are the steps that other threads take before each step of this thread's own; one
  // that is not possible when its turn comes, that would pop too late, or that would be the
  // sixteenth update of the head since this thread read it in `alloc`, is not taken.
  // `spurious` tells which attempts of the weak compare-and-swap fail for no reason.

  import Basic = Words
  import opened TaggedWords
  import opened TaggedFreeList
  import opened TaggedFreeListInvariant
  import opened TaggedFreeListTheorems

  /** A head that thread `t` has read in `alloc` has been updated fewer than sixteen times since. */
  predicate InTime(s: State, t: nat) {
    t < |s.pcs| && (s.pcs[t].AllocRead? || s.pcs[t].AllocTry? ==> s.updates - s.pcs[t].start < 16)
  }

  predicate CanInterfere(s: State, e: Event, t: nat) {
    Enabled(s, e) && e.t != t && Timely(s, e) && InTime(Apply(s, e), t)
  }

  function Interfered(s: State, events: seq<Event>, t: nat): State
    decreases |events|
  {
    if events == [] then s
    else if CanInterfere(s, events[0], t) then Interfered(Apply(s, events[0]), events[1..], t)
    else Interfered(s, events[1..], t)
  }

  /** This thread is where it was and still holds what it held. */
  ghost predicate Undisturbed(s: State, s': State, t: nat) {
    && t < |s.pcs| == |s'.pcs| && s'.pcs[t] == s.pcs[t] && s'.align == s.align
    && forall b {:trigger Holds(s', t, b)} :: Holds(s, t, b) ==> Holds(s', t, b)
  }

  lemma OthersKeepHeld(s: State, e: Event, t: nat, b: Word)
    requires Inv(s) && Enabled(s, e) && e.t != t && Holds(s, t, b)
    ensures Holds(Apply(s, e), t, b)
  {
    assert PcOk(s, e.t);
    if e.TryPop? && Matches(s, e.t, e.spurious) { TopBlock(s); }
  }

  lemma OthersLeaveAlone(s: State, e: Event, t: nat)
    requires Inv(s) && Enabled(s, e) && e.t != t && t < |s.pcs|
    ensures Undisturbed(s, Apply(s, e), t)
  {
    forall b | Holds(s, t, b) ensures Holds(Apply(s, e), t, b) {
      OthersKeepHeld(s, e, t, b);
    }
  }

  lemma {:induction false} InterferedKeeps(s: State, events: seq<Event>, t: nat)
    requires Good(s) && InTime(s, t)
    ensures var s' := Interfered(s, events, t); Good(s') && InTime(s', t) && Undisturbed(s, s', t)
    decreases |events|
  {
    if events != [] {
      var e := events[0];
      if CanInterfere(s, e, t) {
        TimelyIsNotStale(s, e);
        GoodKeeps(s, e);
        OthersLeaveAlone(s, e, t);
        InterferedKeeps(Apply(s, e), events[1..], t);
      } else {
        InterferedKeeps(s, events[1..], t);
      }
    }
  }

  /** Thread `t` still holds what it held. */
  ghost predicate Keeps(s: State, s': State, t: nat) {
    s'.align == s.align && forall b {:trigger Holds(s', t, b)} :: Holds(s, t, b) ==> Holds(s', t, b)
  }

  predicate SameHoldings(s: State, s': State) {
    s'.holders == s.holders && s'.next == s.next && s'.align == s.align
  }

  /** Thread `t` still holds what it held, except `p`. */
  ghost predicate KeepsBut(s: State, s': State, t: nat, p: Word) {
    forall b {:trigger Holds(s', t, b)} :: Holds(s, t, b) && b != p ==> Holds(s', t, b)
  }

  /** Thread `t` holds `p`, which it did not hold before, and still holds what it held. */
  ghost predicate Got(s: State, s': State, t: nat, p: Word) {
    Holds(s', t, p) && !Holds(s, t, p) && Keeps(s, s', t)
  }

  /** A timely pop takes a block that nobody holds. */
  lemma PopGets(s: State, t: nat)
    requires Inv(s) && t < |s.pcs| && s.pcs[t].AllocTry? && s.head == s.pcs[t].head
    ensures Got(s, Apply(s, TryPop(t, false)), t, PtrFrom(s.head))
  {
    assert PcOk(s, t);
    TopBlock(s);
  }

  /** What `aligned_alloc` returns is an address that is not in use and a multiple of the alignment. */
  ghost predicate GivesNewBlocks(system: map<Word, Word> -> Basic.Option<Word>, align: bv64) {
    forall used :: system(used).Some? ==>
      system(used).value != NULL && MultipleOf(Value(system(used).value), align) && system(used).value !in used
  }

  /** The system can run out of memory. */
  ghost predicate Refuses(system: map<Word, Word> -> Basic.Option<Word>) {
    exists used :: system(used).None?
  }

  /** In each of the first `rounds` rounds others moved or the compare-and-swap failed for no reason. */
  predicate AllDisturbed(first: nat -> seq<Event>, second: nat -> seq<Event>, spurious: nat -> bool, rounds: nat) {
    forall n :: 0 <= n < rounds ==> first(n) != [] || second(n) != [] || spurious(n)
  }

  lemma DisturbedOnceMore(first: nat -> seq<Event>, second: nat -> seq<Event>, spurious: nat -> bool, n: nat)
    requires AllDisturbed(first, second, spurious, n) && (first(n) != [] || second(n) != [] || spurious(n))
    ensures AllDisturbed(first, second, spurious, n + 1) && !IsCalm(first, second, spurious)
  {
    assert AllDisturbed(first, second, spurious, n + 1);
    assert first(0) != [] || second(0) != [] || spurious(0);
  }

  /** What has become of an `alloc`: a block, an exception, or a loop that has not ended. */
  datatype Outcome = Block(p: Word) | NoMemory | Retrying

  /** A block that thread `t` did not hold, or none; it still holds what it held. */
  ghost predicate IsOutcome(s: State, s': State, t: nat, r: Outcome)
    requires t < |s'.pcs|
  {
    && Keeps(s, s', t)
    && (if r.Retrying? then s'.pcs[t] == AllocRead(s'.head, s'.updates) else s'.pcs[t].Idle?)
    && (r.Block? ==> Got(s, s', t, r.p))
  }

  // The steps of this thread, one by one.

  /** A step that a thread took, and the state in which it took it. */
  datatype Step = Step(at: State, event: Event)

  /** A step of `alloc` or `free` that does not end the loop: a read, a link store, or an attempt that fails. */
  predicate IsRound(step: Step, t: nat) {
    && step.event.t == t && Enabled(step.at, step.event)
    && match step.event
       case ReadLink(_) => true
       case StoreLink(_) => true
       case TryPop(_, spurious) => !Matches(step.at, t, spurious)
       case TryPush(_, spurious) => !Matches(step.at, t, spurious)
       case _ => false
  }

  /** The log has grown only by such steps. */
  predicate OnlyRounds(log0: seq<Step>, log: seq<Step>, t: nat) {
    log0 <= log && forall k {:trigger IsRound(log[k], t)} :: |log0| <= k < |log| ==> IsRound(log[k], t)
  }

  lemma OnlyRoundsTrans(log0: seq<Step>, log1: seq<Step>, log2: seq<Step>, t: nat)
    requires OnlyRounds(log0, log1, t) && OnlyRounds(log1, log2, t)
    ensures OnlyRounds(log0, log2, t)
  {
    forall k | |log0| <= k < |log2| ensures IsRound(log2[k], t) {
      if k < |log1| { assert log2[k] == log1[k]; }
    }
  }

  /** The log has grown by rounds and one step more, which is `last`. */
  predicate RoundsThen(log0: seq<Step>, log: seq<Step>, t: nat, last: Step) {
    |log| > 0 && log[|log| - 1] == last && OnlyRounds(log0, log[..|log| - 1], t)
  }

  lemma RoundsThenTrans(log0: seq<Step>, log1: seq<Step>, log2: seq<Step>, t: nat, last: Step)
    requires OnlyRounds(log0, log1, t) && RoundsThen(log1, log2, t, last)
    ensures RoundsThen(log0, log2, t, last)
  {
    OnlyRoundsTrans(log0, log1, log2[..|log2| - 1], t);
  }

  /** The step takes block `p` from the list. */
  predicate IsPop(step: Step, t: nat, p: Word) {
    && step.event.TryPop? && step.event.t == t && Enabled(step.at, step.event)
    && Matches(step.at, t, step.event.spurious) && PtrFrom(step.at.head) == p
  }

  /** The step puts block `p` on the list. */
  predicate IsPush(step: Step, t: nat, p: Word) {
    && step.event.TryPush? && step.event.t == t && Enabled(step.at, step.event)
    && Matches(step.at, t, step.event.spurious) && step.at.pcs[t].block == p
  }

  /** The steps of an `alloc` after its load: rounds, and then one step that takes a block from the list, gets
      one from the system, or gives up. */
  predicate IsAllocLog(log0: seq<Step>, log: seq<Step>, t: nat, r: Outcome) {
    match r
    case Retrying => OnlyRounds(log0, log, t)
    case Block(p) => IsPopLog(log0, log, t, p) || IsSystemLog(log0, log, t, Obtain(t, p))
    case NoMemory => IsSystemLog(log0, log, t, Throw(t))
  }

  predicate IsPopLog(log0: seq<Step>, log: seq<Step>, t: nat, p: Word) {
    |log| > 0 && RoundsThen(log0, log, t, log[|log| - 1]) && IsPop(log[|log| - 1], t, p)
  }

  lemma PopLogTrans(log0: seq<Step>, log1: seq<Step>, log2: seq<Step>, t: nat, p: Word)
    requires OnlyRounds(log0, log1, t) && IsPopLog(log1, log2, t, p)
    ensures IsPopLog(log0, log2, t, p)
  {
    RoundsThenTrans(log0, log1, log2, t, log2[|log2| - 1]);
  }

  predicate IsSystemLog(log0: seq<Step>, log: seq<Step>, t: nat, e: Event) {
    |log| > 0 && RoundsThen(log0, log, t, log[|log| - 1]) && log[|log| - 1].event == e
  }

  lemma SystemAfterRounds(log0: seq<Step>, log: seq<Step>, step: Step, t: nat)
    requires OnlyRounds(log0, log, t)
    ensures IsSystemLog(log0, log + [step], t, step.event)
  {
    assert (log + [step])[..|log|] == log;
  }

  lemma GotAfter(s: State, s1: State, s2: State, t: nat, r: Outcome)
    requires Keeps(s, s1, t) && t < |s2.pcs| && IsOutcome(s1, s2, t, r)
    ensures IsOutcome(s, s2, t, r)
  {
  }

  /** Nobody disturbs the first round. */
  predicate IsCalm(first: nat -> seq<Event>, second: nat -> seq<Event>, spurious: nat -> bool) {
    first(0) == [] && second(0) == [] && !spurious(0)
  }

  /** From `s` to `s'` thread `t` has taken the top block, and nothing else has changed. */
  predicate HasPopped(s: State, s': State, t: nat) {
    && t < |s.pcs| && s.list != [] && s'.list == s.list[..|s.list| - 1] && s'.holders == s.holders[Top(s.list) := t]
    && s'.next == s.next && s'.align == s.align && s'.updates == s.updates + 1 && s'.pcs == s.pcs[t := Idle]
  }

  /** From `s` to `s'` thread `t` has got the new block `p`, its first word zero, and nothing else has changed. */
  predicate HasObtained(s: State, s': State, t: nat, p: Word) {
    && t < |s.pcs| && p !in s.next
    && s' == s.(next := s.next[p := NULL], holders := s.holders[p := t], pcs := s.pcs[t := Idle])
  }

  /** From `s` to `s'` thread `t` has put block `p` on top of the list, and nothing else has changed. */
  predicate HasPushed(s: State, s': State, t: nat, p: Word) {
    && t < |s.pcs| && s'.list == s.list + [p] && s'.holders == s.holders - {p} && s'.next == s.next[p := Top(s.list)]
    && s'.align == s.align && s'.updates == s.updates + 1 && s'.pcs == s.pcs[t := Idle]
  }

  /** Nothing but the place of thread `t` differs. */
  predicate SameButPc(s: State, s': State, t: nat) {
    t < |s.pcs| == |s'.pcs| && s' == Goto(s, t, s'.pcs[t])
  }

  /** What `alloc` comes to when nobody disturbs it. */
  predicate IsCalmAlloc(s: State, s': State, t: nat, r: Outcome) {
    if s.list != [] then r == Block(Top(s.list)) && HasPopped(s, s', t)
    else !r.Retrying? && if r.Block? then HasObtained(s, s', t, r.p) else s' == s
  }

  /** What its loop comes to when nobody disturbs it. */
  predicate IsCalmPop(s: State, s': State, t: nat, r: Basic.Option<Word>) {
    if PtrFrom(s.head) == NULL then r.None? && s' == s else r == Basic.Some(Top(s.list)) && HasPopped(s, s', t)
  }

  /** The same, after the load. */
  predicate IsCalmEnd(s: State, s': State, t: nat, r: Outcome) {
    if PtrFrom(s.head) != NULL then r == Block(Top(s.list)) && HasPopped(s, s', t)
    else !r.Retrying? && if r.Block? then HasObtained(s, s', t, r.p) else SameButPc(s, s', t)
  }

  /** The steps of a `free` after its load: rounds, and then the push of the block. */
  predicate IsFreeLog(log0: seq<Step>, log: seq<Step>, t: nat, block: Word, done: bool) {
    if done then |log| > 0 && RoundsThen(log0, log, t, log[|log| - 1]) && IsPush(log[|log| - 1], t, block)
    else OnlyRounds(log0, log, t)
  }

  /** The block being freed holds the link to the head that was seen. */
  predicate HasLinked(s: State, s': State, t: nat) {
    && t < |s.pcs| == |s'.pcs| && s.pcs[t].FreeLink?
    && s' == Goto(s, t, s'.pcs[t]).(next := s.next[s.pcs[t].block := PtrFrom(s.pcs[t].head)])
  }

  lemma HeadIsTop(s: State)
    requires Inv(s)
    ensures PtrFrom(s.head) == Top(s.list) && (PtrFrom(s.head) == NULL <==> s.list == [])
  {
    if s.list != [] { assert LinkOk(s, |s.list| - 1); }
  }

  lemma CalmAfterLoad(s: State, s1: State, s2: State, t: nat, r: Outcome)
    requires Good(s) && IsIdle(s, t) && s1 == Apply(s, LoadForAlloc(t)) && IsCalmEnd(s1, s2, t, r)
    requires r.NoMemory? ==> IsIdle(s2, t)
    ensures IsCalmAlloc(s, s2, t, r)
  {
    HeadIsTop(s);
    if r.Block? { assert s1.pcs[t := Idle] == s.pcs; }
  }

  lemma MissKeeps(s: State, t: nat, missed: bool)
    requires t < |s.pcs| && s.pcs[t].FreeTry? && !Matches(s, t, missed)
    ensures Keeps(s, Apply(s, TryPush(t, missed)), t)
  {
    assert forall b :: Holds(s, t, b) ==> Holds(Apply(s, TryPush(t, missed)), t, b);
  }

  lemma PushesTop(s: State, t: nat)
    requires Inv(s) && t < |s.pcs| && s.pcs[t].FreeTry? && s.head == s.pcs[t].head
    ensures var block := s.pcs[t].block; var r := Apply(s, TryPush(t, false));
      HasPushed(s, r, t, block) && KeepsBut(s, r, t, block)
  {
    assert PcOk(s, t);
    HeadIsTop(s);
  }

  lemma PopsTop(s: State, t: nat)
    requires Inv(s) && t < |s.pcs| && s.pcs[t].AllocTry? && s.head == s.pcs[t].head
    ensures HasPopped(s, Apply(s, TryPop(t, false)), t) && PtrFrom(s.head) == Top(s.list)
  {
    assert PcOk(s, t);
    TopBlock(s);
  }

  lemma PoppedAfter(s: State, s1: State, s2: State, t: nat)
    requires SameButPc(s, s1, t) && HasPopped(s1, s2, t)
    ensures HasPopped(s, s2, t)
  {
  }

  /** The list; `log` is the steps of the calling thread, and `landed` the state that the last of them led to. */
  class FreeList {
    var blockSize: bv64
    var state: State
    ghost var log: seq<Step>
    ghost var landed: State

    /** Raises the alignment to 16 if it is smaller, or not a power of two, and the size to that of a link. */
    constructor (size: bv64, alignment: bv64, threads: nat)
      ensures Good(state) && state == landed == Init(alignment, threads) && log == []
      ensures blockSize == if size < 8 then 8 else size
    {
      blockSize := if size < 8 then 8 else size;
      state := Init(alignment, threads);
      log, landed := [], Init(alignment, threads);
      new;
      InitGood(alignment, threads);
    }

    method Interfere(t: nat, rivals: seq<Event>)
      requires Good(state) && InTime(state, t)
      modifies this`state
      ensures Good(state) && InTime(state, t) && Undisturbed(old(state), state, t)
      ensures rivals == [] ==> state == old(state)
    {
      InterferedKeeps(state, rivals, t);
      state := Interfered(state, rivals, t);
    }

    method Perform(e: Event)
      requires Good(state) && Enabled(state, e) && Timely(state, e)
      modifies this`state, this`log, this`landed
      ensures Good(state) && state == landed == Apply(old(state), e) && log == old(log) + [Step(old(state), e)]
    {
      TimelyIsNotStale(state, e);
      GoodKeeps(state, e);
      log := log + [Step(state, e)];
      state := Apply(state, e);
      landed := state;
    }

    /** Reads the link in the block that the head named. */
    method ReadNext(t: nat, rivals: seq<Event>)
      requires Good(state) && InTime(state, t) && state.pcs[t].AllocRead? && PtrFrom(state.pcs[t].head) != NULL
      modifies this`state, this`log, this`landed
      ensures Good(state) && InTime(state, t) && state.pcs[t].AllocTry? && Keeps(old(state), state, t)
      ensures state.pcs[t].head == old(state.pcs[t].head) && OnlyRounds(old(log), log, t)
      ensures rivals == [] ==> SameButPc(old(state), state, t)
    {
      Interfere(t, rivals);
      assert PcOk(state, t);
      ghost var s := state;
      Perform(ReadLink(t));
      assert forall b :: Holds(s, t, b) ==> Holds(state, t, b);
    }

    /** The compare-and-swap of `alloc`, fewer than sixteen updates after the head was read. */
    method TryHead(t: nat, rivals: seq<Event>, missed: bool) returns (ok: bool)
      requires Good(state) && InTime(state, t) && state.pcs[t].AllocTry?
      modifies this`state, this`log, this`landed
      ensures Good(state) && t < |state.pcs| && state == landed
      ensures rivals == [] ==> ok == (old(state.head) == old(state.pcs[t].head) && !missed)
      ensures if ok then state.pcs[t].Idle? && Got(old(state), state, t, PtrFrom(old(state.pcs[t].head)))
              else state.pcs[t] == AllocRead(state.head, state.updates) && Keeps(old(state), state, t)
      ensures |log| > 0 && log[..|log| - 1] == old(log)
      ensures if ok then IsPop(log[|log| - 1], t, PtrFrom(old(state.pcs[t].head))) else IsRound(log[|log| - 1], t)
      ensures rivals == [] && ok ==> HasPopped(old(state), state, t) && PtrFrom(old(state.head)) == Top(old(state.list))
    {
      Interfere(t, rivals);
      ghost var s := state;
      ok := state.head == state.pcs[t].head && !missed;
      if ok {
        PopGets(s, t);
        PopsTop(s, t);
      }
      Perform(TryPop(t, missed));
      assert !ok ==> forall b :: Holds(s, t, b) ==> Holds(state, t, b);
    }

    /** One round of `alloc` on a head that is not null. */
    method AttemptPop(t: nat, first: seq<Event>, second: seq<Event>, missed: bool) returns (ok: bool)
      requires Good(state) && t < |state.pcs| && state.pcs[t] == AllocRead(state.head, state.updates)
      requires PtrFrom(state.head) != NULL
      modifies this`state, this`log, this`landed
      ensures Good(state) && t < |state.pcs| && state == landed
      ensures !ok || IsOutcome(old(state), state, t, Block(PtrFrom(old(state.head))))
      ensures ok || IsOutcome(old(state), state, t, Retrying)
      ensures if ok then IsPopLog(old(log), log, t, PtrFrom(old(state.head))) else OnlyRounds(old(log), log, t)
      ensures first == [] && second == [] && !missed ==>
        ok && HasPopped(old(state), state, t) && PtrFrom(old(state.head)) == Top(old(state.list))
    {
      ReadNext(t, first);
      ghost var s := state;
      ok := TryHead(t, second, missed);
      if first == [] && second == [] && !missed { PoppedAfter(old(state), s, state, t); }
    }

    /** Asks the system for a block, the list being empty. */
    method FromSystem(t: nat, system: map<Word, Word> -> Basic.Option<Word>) returns (r: Outcome)
      requires Good(state) && t < |state.pcs| && state.pcs[t].AllocRead? && PtrFrom(state.pcs[t].head) == NULL
      requires GivesNewBlocks(system, state.align)
      modifies this`state, this`log, this`landed
      ensures Good(state) && t < |state.pcs| && state == landed && !r.Retrying?
      ensures log == old(log) + [Step(old(state), if r.Block? then Obtain(t, r.p) else Throw(t))]
      ensures IsOutcome(old(state), state, t, r) && (r.NoMemory? ==> Refuses(system))
      ensures if r.Block? then HasObtained(old(state), state, t, r.p) else SameButPc(old(state), state, t)
    {
      ghost var s := state;
      var block := system(state.next);
      assert block.Some? ==> !Holds(s, t, block.value);
      if block.Some? {
        Perform(Obtain(t, block.value));
        r := Block(block.value);
      } else {
        Perform(Throw(t));
        r := NoMemory;
      }
      assert forall b :: Holds(s, t, b) ==> Holds(state, t, b);
    }

    /** The loop of `alloc`, for up to `rounds` rounds, until the list is empty. */
    method PopRounds(t: nat, first: nat -> seq<Event>, second: nat -> seq<Event>, spurious: nat -> bool, rounds: nat)
      returns (r: Basic.Option<Word>)
      requires Good(state) && t < |state.pcs| && state.pcs[t] == AllocRead(state.head, state.updates)
      requires state == landed
      modifies this`state, this`log, this`landed
      ensures Good(state) && t < |state.pcs| && state == landed
      ensures r.None? || IsOutcome(old(state), state, t, Block(r.value))
      ensures r.Some? || IsOutcome(old(state), state, t, Retrying)
      ensures r.Some? || PtrFrom(state.head) == NULL || AllDisturbed(first, second, spurious, rounds)
      ensures r.Some? || OnlyRounds(old(log), log, t)
      ensures r.None? || IsPopLog(old(log), log, t, r.value)
      ensures rounds == 0 || !IsCalm(first, second, spurious) || IsCalmPop(old(state), state, t, r)
    {
      var n := 0;
      while n < rounds && PtrFrom(state.head) != NULL
        invariant n <= rounds && AllDisturbed(first, second, spurious, n)
        invariant Good(state) && t < |state.pcs| && IsOutcome(old(state), state, t, Retrying)
        invariant OnlyRounds(old(log), log, t) && state == landed
        invariant if n == 0 then state == old(state) else !IsCalm(first, second, spurious)
      {
        var p := PtrFrom(state.head);
        ghost var s, l := state, log;
        var ok := AttemptPop(t, first(n), second(n), spurious(n));
        if ok {
          GotAfter(old(state), s, state, t, Block(p));
          PopLogTrans(old(log), l, log, t, p);
          return Basic.Some(p);
        }
        GotAfter(old(state), s, state, t, Retrying);
        OnlyRoundsTrans(old(log), l, log, t);
        DisturbedOnceMore(first, second, spurious, n);
        n := n + 1;
      }
      return Basic.None;
    }

    /** `alloc`, followed through up to `rounds` rounds of its loop.  The block returned was not held by the
        caller, nor is it by anyone else, and the caller's other blocks are untouched; without a block
        on the list the system is asked for one.  The loop goes on only if every round was disturbed.
        Its steps are the load, the failed rounds and the one that ends it, and nothing else;
        undisturbed, it takes the top block if there is one. */
    method Alloc(t: nat, first: nat -> seq<Event>, second: nat -> seq<Event>, spurious: nat -> bool, rounds: nat,
                 system: map<Word, Word> -> Basic.Option<Word>) returns (r: Outcome)
      requires Good(state) && IsIdle(state, t) && GivesNewBlocks(system, state.align)
      modifies this`state, this`log, this`landed
      ensures Good(state) && t < |state.pcs| && IsOutcome(old(state), state, t, r)
      ensures r.NoMemory? ==> Refuses(system)
      ensures r.Retrying? ==> AllDisturbed(first, second, spurious, rounds)
      ensures IsAllocLog(old(log) + [Step(old(state), LoadForAlloc(t))], log, t, r) && state == landed
      ensures rounds > 0 && IsCalm(first, second, spurious) ==> IsCalmAlloc(old(state), state, t, r)
    {
      Load(LoadForAlloc(t));
      ghost var s := state;
      r := Rounds(t, first, second, spurious, rounds, system);
      if rounds > 0 && IsCalm(first, second, spurious) { CalmAfterLoad(old(state), s, state, t, r); }
    }

    /** The loop of `alloc` and what follows it. */
    method Rounds(t: nat, first: nat -> seq<Event>, second: nat -> seq<Event>, spurious: nat -> bool, rounds: nat,
                  system: map<Word, Word> -> Basic.Option<Word>) returns (r: Outcome)
      requires Good(state) && t < |state.pcs| && state.pcs[t] == AllocRead(state.head, state.updates)
      requires GivesNewBlocks(system, state.align) && state == landed
      modifies this`state, this`log, this`landed
      ensures Good(state) && t < |state.pcs| && IsOutcome(old(state), state, t, r)
      ensures r.NoMemory? ==> Refuses(system)
      ensures r.Retrying? ==> AllDisturbed(first, second, spurious, rounds)
      ensures IsAllocLog(old(log), log, t, r) && state == landed
      ensures rounds == 0 || !IsCalm(first, second, spurious) || IsCalmEnd(old(state), state, t, r)
    {
      var popped := PopRounds(t, first, second, spurious, rounds);
      if popped.Some? {
        return Block(popped.value);
      }
      if PtrFrom(state.head) != NULL {
        return Retrying;
      }
      ghost var s, l := state, log;
      r := FromSystem(t, system);
      SystemAfterRounds(old(log), l, log[|l|], t);
      GotAfter(old(state), s, state, t, r);
    }

    /** The load with which a call begins. */
    method Load(e: Event)
      requires Good(state) && Enabled(state, e) && (e.LoadForAlloc? || e.LoadForFree?)
      modifies this`state, this`log, this`landed
      ensures Good(state) && state == landed == Apply(old(state), e) && log == old(log) + [Step(old(state), e)]
      ensures SameHoldings(old(state), state)
    {
      Perform(e);
    }

    /** One round of `free`: links the block to the head seen and tries to make it the head. */
    method AttemptPush(t: nat, first: seq<Event>, second: seq<Event>, missed: bool) returns (ok: bool)
      requires Good(state) && t < |state.pcs| && state.pcs[t].FreeLink?
      modifies this`state, this`log, this`landed
      ensures Good(state) && t < |state.pcs| && state == landed
      ensures var block := old(state.pcs[t].block);
        && KeepsBut(old(state), state, t, block)
        && if ok then state.pcs[t].Idle? && Top(state.list) == block && block !in state.holders
           else state.pcs[t] == FreeLink(block, state.head)
      ensures IsFreeLog(old(log), log, t, old(state.pcs[t].block), ok)
      ensures first == [] && second == [] && !missed && old(state.head) == old(state.pcs[t].head) ==>
        ok && HasPushed(old(state), state, t, old(state.pcs[t].block))
    {
      LinkBlock(t, first);
      ok := TryTop(t, second, missed);
    }

    /** The compare-and-swap of `free`. */
    method TryTop(t: nat, rivals: seq<Event>, missed: bool) returns (ok: bool)
      requires Good(state) && t < |state.pcs| && state.pcs[t].FreeTry?
      modifies this`state, this`log, this`landed
      ensures Good(state) && t < |state.pcs| && state == landed && |log| > 0 && log[..|log| - 1] == old(log)
      ensures var block := old(state.pcs[t].block);
        && KeepsBut(old(state), state, t, block)
        && if ok then state.pcs[t].Idle? && Top(state.list) == block && block !in state.holders
           else state.pcs[t] == FreeLink(block, state.head)
      ensures if ok then IsPush(log[|log| - 1], t, old(state.pcs[t].block)) else IsRound(log[|log| - 1], t)
      ensures rivals == [] && !missed && old(state.head) == old(state.pcs[t].head) ==>
        ok && HasPushed(old(state), state, t, old(state.pcs[t].block))
    {
      var block := state.pcs[t].block;
      Interfere(t, rivals);
      ghost var s := state;
      assert PcOk(state, t);
      ok := state.head == state.pcs[t].head && !missed;
      if ok {
        PushesTop(s, t);
      } else {
        MissKeeps(s, t, missed);
      }
      Perform(TryPush(t, missed));
    }

    /** Writes the head seen into the block. */
    method LinkBlock(t: nat, rivals: seq<Event>)
      requires Good(state) && t < |state.pcs| && state.pcs[t].FreeLink?
      modifies this`state, this`log, this`landed
      ensures Good(state) && t < |state.pcs| && Keeps(old(state), state, t) && OnlyRounds(old(log), log, t)
      ensures state.pcs[t] == FreeTry(old(state.pcs[t].block), old(state.pcs[t].head))
      ensures rivals == [] ==> HasLinked(old(state), state, t)
    {
      Interfere(t, rivals);
      ghost var s := state;
      assert PcOk(state, t);
      Perform(StoreLink(t));
      assert forall b :: Holds(s, t, b) ==> Holds(state, t, b);
    }

    /** The loop of `free`, for up to `rounds` rounds. */
    method PushRounds(t: nat, first: nat -> seq<Event>, second: nat -> seq<Event>, spurious: nat -> bool, rounds: nat)
      returns (done: bool)
      requires Good(state) && t < |state.pcs| && state.pcs[t].FreeLink? && state.pcs[t].head == state.head
      requires state == landed
      modifies this`state, this`log, this`landed
      ensures Good(state) && t < |state.pcs| && KeepsBut(old(state), state, t, old(state.pcs[t].block))
      ensures done ==>
        state.pcs[t].Idle? && Top(state.list) == old(state.pcs[t].block) && Top(state.list) !in state.holders
      ensures !done ==> state.pcs[t] == FreeLink(old(state.pcs[t].block), state.head)
      ensures !done ==> AllDisturbed(first, second, spurious, rounds)
      ensures state == landed && IsFreeLog(old(log), log, t, old(state.pcs[t].block), done)
      ensures rounds == 0 || !IsCalm(first, second, spurious) ||
              (done && HasPushed(old(state), state, t, old(state.pcs[t].block)))
    {
      var block, n := state.pcs[t].block, 0;
      while n < rounds
        invariant n <= rounds && AllDisturbed(first, second, spurious, n)
        invariant Good(state) && t < |state.pcs| && state.pcs[t] == FreeLink(block, state.head)
        invariant KeepsBut(old(state), state, t, block) && OnlyRounds(old(log), log, t) && state == landed
        invariant if n == 0 then state == old(state) else !IsCalm(first, second, spurious)
      {
        ghost var l := log;
        var ok := AttemptPush(t, first(n), second(n), spurious(n));
        if ok {
          RoundsThenTrans(old(log), l, log, t, log[|log| - 1]);
          return true;
        }
        OnlyRoundsTrans(old(log), l, log, t);
        DisturbedOnceMore(first, second, spurious, n);
        n := n + 1;
      }
      return false;
    }

    /** `free`, followed through up to `rounds` rounds of its loop, with no bound on what others do meanwhile:
        the block is on top of the list and held by nobody.  The loop goes on only if every round was
        disturbed.  Its steps are the load, the failed rounds and the push, and nothing else;
        undisturbed, the list has grown by the block and nothing else has changed. */
    method Free(t: nat, mem: Word, first: nat -> seq<Event>, second: nat -> seq<Event>, spurious: nat -> bool,
                rounds: nat)
      returns (done: bool)
      requires Good(state) && IsIdle(state, t) && (mem == NULL || Holds(state, t, mem))
      modifies this`state, this`log, this`landed
      ensures Good(state) && t < |state.pcs|
      ensures mem == NULL ==> done && state == old(state) && log == old(log)
      ensures mem != NULL ==> KeepsBut(old(state), state, t, mem)
      ensures mem != NULL && done ==> state.pcs[t].Idle? && Top(state.list) == mem && mem !in state.holders
      ensures !done ==> state.pcs[t] == FreeLink(mem, state.head)
      ensures !done ==> AllDisturbed(first, second, spurious, rounds)
      ensures mem != NULL ==>
        IsFreeLog(old(log) + [Step(old(state), LoadForFree(t, mem))], log, t, mem, done) && state == landed
      ensures mem != NULL && rounds > 0 && IsCalm(first, second, spurious) ==>
        done && HasPushed(old(state), state, t, mem)
    {
      if mem == NULL {
        return true;
      }
      Load(LoadForFree(t, mem));
      done := PushRounds(t, first, second, spurious, rounds);
    }
  }
}
