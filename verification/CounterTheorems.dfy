module CounterTheorems {
  // The counter client obeys the rules of the library, and what the benchmark checks at run time holds
  // in every run of it.
  //
  // `Due` is the client's program alone: which statement a thread has reached, whether its last call
  // has returned, and whether the first version is out.  That the call it then makes is one that
  // the library allows is a theorem.

  import opened Words
  import opened Protocol
  import opened ProtocolInvariant
  import opened ProtocolTheorems
  import opened CounterClient

  /** The step that a thread has reached in its program.  Of the allocator and the system it is assumed
      that a new version gets an address that is not in use and that live memory is left alone. */
  predicate Due(c: Client, st: Step) {
    && (!st.Scribble? ==> AtThread(c, st.t))
    && match st
       case MakeVersion(t, addr, _) =>
         && IsIdle(c.lib, t) && CanMake(c.lib, addr)
         && (c.phases[t].MainNew? || (c.published != [] && c.phases[t].WriterNew?) || c.phases[t].WriterWon?)
       case StartExchange(t) => c.phases[t].MainMade?
       case AcquireOld(t) => IsIdle(c.lib, t) && c.phases[t].WriterReady? && c.published != []
       case WriteNew(t) => c.phases[t].WriterHolds?
       case StartCompare(t) => c.phases[t].WriterWrote?
       case AcquireToRead(t) => IsIdle(c.lib, t) && c.phases[t].ReaderReady? && c.published != []
       case Compare(t) => c.phases[t].ReaderHolds?
       case ReleaseHeld(t) => c.phases[t].WriterDone? || c.phases[t].ReaderDone?
       case Library(t, e) => !c.lib.pcs[t].Idle? && IsNext(c.lib.pcs[t], t, e)
       case Scribble(memory) => CanClobber(c.lib, memory)
  }

  /** Event `e` is the next step of a call of thread `t` that is at `pc`; a weak compare-and-swap may fail
      for no reason. */
  predicate IsNext(pc: Pc, t: nat, e: Event) {
    match pc
    case Idle => false
    case ExchangeReady(_, _, _) => e == ExchangeSwap(t)
    case CompareReady(_, _, _, _, _) => e == CompareLoad(t)
    case CompareLoop(_, _, _, _, _, _) => e.CompareCas? && e.t == t
    case DetachReady(_, _, _, _) => e == DetachLoad(t)
    case DetachLoop(_, _, _, _, _, _, _) => e.DetachCas? && e.t == t
    case Finalizing(_, _) => e == ClaimFinal(t)
    case Calling(_, _) => e == RunCallback(t)
    case Freeing(_, _) => e == EnterFree(t)
  }

  // What the rules need beyond the invariant.

  /** Before it acquires, a thread holds nothing. */
  predicate IsUnheld(phase: Phase) {
    || phase.WriterNew? || phase.WriterReady? || phase.ReaderReady?
    || phase.MainNew? || phase.MainMade? || phase.MainCall? || phase.MainDone?
  }

  /** Between two calls, in the same round of its loop, a thread is inside no call. */
  predicate IsBetween(phase: Phase) {
    || phase.WriterNew? || phase.WriterHolds? || phase.WriterWrote? || phase.WriterDone?
    || phase.ReaderHolds? || phase.ReaderDone? || phase.MainNew? || phase.MainMade?
  }

  predicate RestOk(c: Client, t: nat)
    requires AtThread(c, t)
  {
    (IsUnheld(c.phases[t]) ==> t !in c.lib.holds) && (IsBetween(c.phases[t]) ==> c.lib.pcs[t].Idle?)
  }

  /** A version that was never current is still its maker's, or is being offered. */
  predicate Tame(lib: State, i: nat)
    requires i < |lib.versions|
  {
    lib.versions[i].published || lib.versions[i].life.Private? || lib.versions[i].life.Offered?
  }

  ghost predicate Obedient(c: Client) {
    && ClientInv(c)
    && (forall t {:trigger RestOk(c, t)} :: 0 <= t < |c.phases| ==> RestOk(c, t))
    && (forall i {:trigger Tame(c.lib, i)} :: 0 <= i < |c.lib.versions| ==> Tame(c.lib, i))
  }

  lemma InitObedient(c: Client)
    requires IsInit(c)
    ensures Obedient(c)
  {
    CounterClient.InitKeeps(c);
  }

  // Every step keeps it.

  /** The steps inside a call take a version that was never current only out of an offer, or publish it. */
  lemma TameInside(lib: State, e: Event, i: nat)
    requires Inv(lib) && Enabled(lib, e) && IsInside(e) && i < |lib.versions| && Tame(lib, i)
    ensures i < |Apply(lib, e).versions| && Tame(Apply(lib, e), i)
  {
    assert VersionOk(lib, i) && PcOk(lib, e.t);
    if IsPublishing(lib.pcs[e.t]) { assert SlotOk(lib, lib.pcs[e.t].slot); }
  }

  lemma TameStep(lib: State, e: Event, i: nat)
    requires Inv(lib) && Enabled(lib, e) && !e.FreeVersion? && i < |lib.versions| && Tame(lib, i)
    ensures i < |Apply(lib, e).versions| && Tame(Apply(lib, e), i)
  {
    if IsInside(e) {
      TameInside(lib, e, i);
    } else if e.Release? {
      HeldLife(lib, e.hold);
      assert VersionOk(lib, i);
    }
  }

  lemma TameKeeps(lib: State, lib': State, e: Event)
    requires Inv(lib) && Enabled(lib, e) && !e.FreeVersion? && lib' == Apply(lib, e)
    requires forall i {:trigger Tame(lib, i)} :: 0 <= i < |lib.versions| ==> Tame(lib, i)
    ensures forall i {:trigger Tame(lib', i)} :: 0 <= i < |lib'.versions| ==> Tame(lib', i)
  {
    forall i | 0 <= i < |lib'.versions| ensures Tame(lib', i) {
      if i < |lib.versions| {
        assert Tame(lib, i);
        TameStep(lib, e, i);
      }
    }
  }

  /** Event `e` is on behalf of another thread than `u`, whose hold is `u`. */
  predicate NotOf(e: Event, u: nat) {
    match e
    case Make(_) => true
    case Clobber(_) => true
    case Acquire(_, hold) => hold != u
    case Release(t, hold) => t != u && hold != u
    case _ => e.t != u
  }

  lemma LibraryRestsOthers(lib: State, e: Event, u: nat)
    requires Enabled(lib, e) && NotOf(e, u) && u < |lib.pcs|
    ensures u < |Apply(lib, e).pcs| && Apply(lib, e).pcs[u] == lib.pcs[u]
    ensures u in Apply(lib, e).holds <==> u in lib.holds
  {
  }

  lemma OthersPhase(c: Client, st: Step, u: nat)
    requires CanStep(c, st) && u < |c.phases| && (st.Scribble? || u != st.t)
    ensures u < |Next(c, st).phases| && Next(c, st).phases[u] == c.phases[u]
    ensures LibraryEvent(c, st).Some? ==> NotOf(LibraryEvent(c, st).value, u)
  {
  }

  /** A step leaves the threads that do not take it where they are, with the holds they have. */
  lemma OthersRest(c: Client, st: Step, u: nat)
    requires CanStep(c, st) && AtThread(c, u) && (st.Scribble? || u != st.t) && RestOk(c, u)
    ensures AtThread(Next(c, st), u) && RestOk(Next(c, st), u)
  {
    NextLibrary(c, st);
    OthersPhase(c, st, u);
    if LibraryEvent(c, st).Some? { LibraryRestsOthers(c.lib, LibraryEvent(c, st).value, u); }
  }

  lemma DisposalRest(c: Client, t: nat, e: Event)
    requires ClientInv(c) && CanStep(c, Library(t, e)) && RestOk(c, t) && IsDisposal(e)
    ensures AtThread(AfterLibrary(c, t, e), t) && RestOk(AfterLibrary(c, t, e), t)
  {
    DisposalMoves(c.lib, e);
  }

  lemma SwapRest(c: Client, t: nat, e: Event)
    requires ClientInv(c) && CanStep(c, Library(t, e)) && RestOk(c, t) && (e.ExchangeSwap? || CompareSucceeds(c.lib, e))
    ensures AtThread(AfterLibrary(c, t, e), t) && RestOk(AfterLibrary(c, t, e), t)
  {
    assert PhaseOk(c, t) && CallOk(c, t);
    SwapMoves(c.lib, t);
  }

  lemma MissRest(c: Client, t: nat, e: Event)
    requires ClientInv(c) && CanStep(c, Library(t, e)) && RestOk(c, t)
    requires (e.CompareLoad? || e.CompareCas?) && !CompareSucceeds(c.lib, e)
    ensures AtThread(AfterLibrary(c, t, e), t) && RestOk(AfterLibrary(c, t, e), t)
  {
    assert PhaseOk(c, t) && CallOk(c, t);
    CompareMoves(c.lib, e);
  }

  lemma CallRest(c: Client, st: Step)
    requires CanStep(c, st) && !st.Scribble? && !st.Library? && RestOk(c, st.t)
    ensures AtThread(Next(c, st), st.t) && RestOk(Next(c, st), st.t)
  {
  }

  lemma OwnRest(c: Client, st: Step)
    requires ClientInv(c) && CanStep(c, st) && !st.Scribble? && RestOk(c, st.t)
    ensures AtThread(Next(c, st), st.t) && RestOk(Next(c, st), st.t)
  {
    if !st.Library? {
      CallRest(c, st);
    } else if IsDisposal(st.e) {
      DisposalRest(c, st.t, st.e);
    } else if st.e.ExchangeSwap? || CompareSucceeds(c.lib, st.e) {
      SwapRest(c, st.t, st.e);
    } else {
      MissRest(c, st.t, st.e);
    }
  }

  lemma StepKeepsObedient(c: Client, st: Step)
    requires Obedient(c) && CanStep(c, st) && |c.phases| < MOD32
    ensures Obedient(Next(c, st))
  {
    StepKeepsLibrary(c, st);
    var c' := Next(c, st);
    forall u | 0 <= u < |c'.phases| ensures RestOk(c', u) {
      assert RestOk(c, u);
      if !st.Scribble? && u == st.t { OwnRest(c, st); } else { OthersRest(c, st, u); }
    }
    NextLibrary(c, st);
    if LibraryEvent(c, st).Some? { TameKeeps(c.lib, c'.lib, LibraryEvent(c, st).value); }
  }

  // The rules are obeyed.

  /** A version that thread `t` owns and is not offering is private. */
  lemma OwnedIsPrivate(c: Client, t: nat, v: nat)
    requires Obedient(c) && AtThread(c, t) && Owns(c, t, v) && c.lib.pcs[t].Idle?
    ensures c.lib.versions[v].life.Private?
  {
    assert Tame(c.lib, v) && VersionOk(c.lib, v);
    var life := c.lib.versions[v].life;
    assert life.Offered? ==> AtThread(c, life.thread) && PhaseOk(c, life.thread) && CallOk(c, life.thread);
  }

  lemma StartAllowed(c: Client, t: nat)
    requires Obedient(c) && AtThread(c, t) && (c.phases[t].MainMade? || c.phases[t].WriterWrote?)
    ensures CanStep(c, if c.phases[t].MainMade? then StartExchange(t) else StartCompare(t))
  {
    assert PhaseOk(c, t) && RestOk(c, t);
    OwnedIsPrivate(c, t, c.phases[t].version);
  }

  lemma ReleaseAllowed(c: Client, t: nat)
    requires Obedient(c) && AtThread(c, t) && (c.phases[t].WriterDone? || c.phases[t].ReaderDone?)
    ensures CanStep(c, ReleaseHeld(t))
  {
    assert PhaseOk(c, t) && RestOk(c, t);
    forall u | 0 <= u < |c.lib.pcs| ensures !Pins(c.lib.pcs[u], t) {
      assert PhaseOk(c, u) && CallOk(c, u);
    }
  }

  /** The rules of the library are obeyed: whatever a thread has reached in its program, the call it makes
      is allowed and the data it touches is there. */
  lemma RulesObeyed(c: Client, st: Step)
    requires Obedient(c) && Due(c, st)
    ensures CanStep(c, st)
  {
    match st
    case StartExchange(t) => StartAllowed(c, t);
    case StartCompare(t) => StartAllowed(c, t);
    case ReleaseHeld(t) => ReleaseAllowed(c, t);
    case AcquireOld(t) => assert RestOk(c, t);
    case AcquireToRead(t) => assert RestOk(c, t);
    case WriteNew(t) => assert PhaseOk(c, t);
    case Compare(t) => assert PhaseOk(c, t);
    case Library(t, e) => assert PcOk(c.lib, t);
    case _ =>
  }

  // Runs.

  /** A run of the client: each step is one that a thread has reached in its program, and has its effect if
      the library allows it.  A call that broke a rule could be followed by anything. */
  ghost predicate IsRun(clients: seq<Client>, steps: seq<Step>) {
    && |clients| == |steps| + 1 && IsInit(clients[0])
    && forall k {:trigger Due(clients[k], steps[k])} :: 0 <= k < |steps| ==>
         && Due(clients[k], steps[k])
         && (CanStep(clients[k], steps[k]) ==> clients[k + 1] == Next(clients[k], steps[k]))
  }

  lemma {:induction false} RunObedient(clients: seq<Client>, steps: seq<Step>, k: nat)
    requires IsRun(clients, steps) && k < |clients| && |clients[0].phases| < MOD32
    ensures Obedient(clients[k]) && |clients[k].phases| == |clients[0].phases|
    decreases k
  {
    if k == 0 {
      InitObedient(clients[0]);
    } else {
      RunObedient(clients, steps, k - 1);
      assert Due(clients[k - 1], steps[k - 1]);
      RulesObeyed(clients[k - 1], steps[k - 1]);
      StepKeepsObedient(clients[k - 1], steps[k - 1]);
      PhasesStay(clients[k - 1], steps[k - 1]);
    }
  }

  /** In every run of fewer than 2^32 writers and readers, no call ever breaks a rule of the library, and the
      invariant of client and library holds throughout. */
  lemma RunInv(clients: seq<Client>, steps: seq<Step>, k: nat)
    requires IsRun(clients, steps) && k < |clients| && |clients[0].phases| < MOD32
    ensures ClientInv(clients[k]) && |clients[k].phases| == |clients[0].phases|
    ensures k < |steps| ==> CanStep(clients[k], steps[k]) && clients[k + 1] == Next(clients[k], steps[k])
  {
    RunObedient(clients, steps, k);
    if k < |steps| {
      assert Due(clients[k], steps[k]);
      RulesObeyed(clients[k], steps[k]);
    }
  }

  // What the benchmark checks at run time, for every run.

  /** The two error exits of the reader are unreachable: when it compares, both values are equal,
      not below the previous one, and the payload has not been destroyed. */
  lemma ReaderChecksPass(c: Client, t: nat)
    requires ClientInv(c) && AtThread(c, t) && c.phases[t].ReaderHolds?
    ensures Holds(c, t) && Held(c, t).value1 == Held(c, t).value2 && c.phases[t].prev <= Held(c, t).value1
    ensures IsLive(c.lib, c.lib.holds[t].inc) && c.lib.versions[c.lib.holds[t].inc].callbacks == 0
  {
    assert PhaseOk(c, t);
    NoPrematureReclamation(c.lib, c.lib.holds[t].inc);
  }

  /** The values published are 0, 1, 2, ... in this order, twice each. */
  lemma PublishedInOrder(c: Client, j: nat)
    requires ClientInv(c) && j < |c.published|
    ensures c.published[j] < |c.data| && c.data[c.published[j]] == Data(j, j)
    ensures forall i :: 0 <= i < |c.published| && c.published[i] == c.published[j] ==> i == j
  {
    assert PublishedOk(c, j);
    forall i | 0 <= i < |c.published| && c.published[i] == c.published[j] ensures i == j { assert PublishedOk(c, i); }
  }

  /** Does this step put a version into the slot? */
  predicate Publishes(c: Client, st: Step)
    requires CanStep(c, st)
  {
    st.Library? && (st.e.ExchangeSwap? || CompareSucceeds(c.lib, st.e))
  }

  /** One publication per successful swap, and none without. */
  lemma OnePerSuccess(c: Client, st: Step)
    requires ClientInv(c) && CanStep(c, st)
    ensures |Next(c, st).published| == |c.published| + (if Publishes(c, st) then 1 else 0)
    ensures c.published <= Next(c, st).published
  {
    if st.Library? { assert PhaseOk(c, st.t) && CallOk(c, st.t); }
  }

  /** The value that a reader saw last, or 0 before it saw any. */
  function LastSeen(c: Client, t: nat): int
    requires t < |c.phases|
  {
    match c.phases[t]
    case ReaderReady(prev) => prev
    case ReaderHolds(prev) => prev
    case ReaderDone(prev) => prev
    case _ => 0
  }

  predicate IsReading(c: Client, t: nat) {
    t < |c.phases| && (c.phases[t].ReaderReady? || c.phases[t].ReaderHolds? || c.phases[t].ReaderDone?)
  }

  lemma OnlyCompareSees(c: Client, st: Step, t: nat)
    requires CanStep(c, st) && IsReading(c, t) && st != Compare(t)
    ensures IsReading(Next(c, st), t) && LastSeen(Next(c, st), t) == LastSeen(c, t)
  {
  }

  lemma StepNeverDecreases(c: Client, st: Step, t: nat)
    requires ClientInv(c) && CanStep(c, st) && IsReading(c, t)
    ensures IsReading(Next(c, st), t) && LastSeen(c, t) <= LastSeen(Next(c, st), t)
  {
    if st == Compare(t) {
      assert PhaseOk(c, t);
    } else {
      OnlyCompareSees(c, st, t);
    }
  }

  /** End to end: along every run of fewer than 2^32 writers and readers, no reader ever sees a
      value smaller than one it saw before. */
  lemma {:induction false} ReadersNeverGoBack(clients: seq<Client>, steps: seq<Step>, t: nat, j: nat, k: nat)
    requires IsRun(clients, steps) && |clients[0].phases| < MOD32
    requires j <= k < |clients| && IsReading(clients[j], t)
    ensures IsReading(clients[k], t) && LastSeen(clients[j], t) <= LastSeen(clients[k], t)
    decreases k
  {
    if j < k {
      ReadersNeverGoBack(clients, steps, t, j, k - 1);
      RunInv(clients, steps, k - 1);
      StepNeverDecreases(clients[k - 1], steps[k - 1], t);
    }
  }

  // The values that readers read.

  /** Until its next comparison, the value a reader saw last is the one in the version it held at the comparison in
      step `j`. */
  lemma {:induction false} LastSeenIsLastRead(clients: seq<Client>, steps: seq<Step>, t: nat, j: nat, k: nat)
    requires IsRun(clients, steps) && |clients[0].phases| < MOD32
    requires j < k < |clients| && steps[j] == Compare(t) && forall i :: j < i < k ==> steps[i] != Compare(t)
    ensures Holds(clients[j], t) && IsReading(clients[k], t) && LastSeen(clients[k], t) == Held(clients[j], t).value1
    decreases k
  {
    RunInv(clients, steps, k - 1);
    if j < k - 1 {
      LastSeenIsLastRead(clients, steps, t, j, k - 1);
      OnlyCompareSees(clients[k - 1], steps[k - 1], t);
    }
  }

  /** End to end, on the values themselves: in every run of fewer than 2^32 writers and readers, of two comparisons
      by the same reader the later one finds equal halves in the version it holds, and no smaller value. */
  lemma ReadsNeverGoBack(clients: seq<Client>, steps: seq<Step>, t: nat, j: nat, k: nat)
    requires IsRun(clients, steps) && |clients[0].phases| < MOD32
    requires j < k < |steps| && steps[j] == steps[k] == Compare(t)
    ensures Holds(clients[j], t) && Holds(clients[k], t)
    ensures Held(clients[j], t).value1 <= Held(clients[k], t).value1 == Held(clients[k], t).value2
  {
    LastSeenIsLastRead(clients, steps, t, j, j + 1);
    ReadersNeverGoBack(clients, steps, t, j + 1, k);
    RunInv(clients, steps, k);
    ReaderChecksPass(clients[k], t);
  }

  /** An acquire gives the thread the version that was published last. */
  lemma AcquiresLatest(c: Client, st: Step)
    requires ClientInv(c) && CanStep(c, st) && (st.AcquireOld? || st.AcquireToRead?)
    ensures c.published != [] && Holds(Next(c, st), st.t)
    ensures Held(Next(c, st), st.t) == Data(|c.published| - 1, |c.published| - 1)
  {
    AcquireMoves(c.lib, st.t);
    assert PublishedOk(c, |c.published| - 1);
  }

  // No version is lost.

  /** The phase of a thread names version `v` as the one it will go on with. */
  predicate Names(phase: Phase, v: nat) {
    && (|| phase.MainMade? || phase.MainCall? || phase.WriterReady? || phase.WriterHolds?
        || phase.WriterWrote? || phase.WriterCall? || phase.WriterDone?)
    && phase.version == v
  }

  /** Version `v` has been published, or its maker goes on with it. */
  predicate Accounted(c: Client, v: nat) {
    && v < |c.makers| && v < |c.lib.versions|
    && (c.lib.versions[v].published || (c.makers[v] < |c.phases| && Names(c.phases[c.makers[v]], v)))
  }

  lemma StaysPublished(lib: State, e: Event, v: nat)
    requires Enabled(lib, e) && v < |lib.versions| && lib.versions[v].published
    ensures v < |Apply(lib, e).versions| && Apply(lib, e).versions[v].published
  {
  }

  /** A call that wins publishes the version that its thread named. */
  lemma WinnerPublishes(c: Client, t: nat, e: Event, v: nat)
    requires ClientInv(c) && CanStep(c, Library(t, e)) && Accounted(c, v) && c.makers[v] == t
    ensures Accounted(AfterLibrary(c, t, e), v)
  {
    assert PhaseOk(c, t) && CallOk(c, t);
    if c.lib.versions[v].published {
      StaysPublished(c.lib, e, v);
    } else if e.ExchangeSwap? || CompareSucceeds(c.lib, e) {
      SwapMoves(c.lib, t);
    }
  }

  /** What a thread does outside library calls leaves the version that it names. */
  lemma KeepsNaming(c: Client, st: Step, v: nat)
    requires CanStep(c, st) && !st.Scribble? && !st.Library? && Names(c.phases[st.t], v)
    ensures AtThread(c, st.t) && st.t < |Next(c, st).phases| && Names(Next(c, st).phases[st.t], v)
  {
  }

  lemma VersionsStay(lib: State, e: Event)
    requires Enabled(lib, e)
    ensures |lib.versions| <= |Apply(lib, e).versions|
  {
  }

  lemma MakersStay(c: Client, st: Step, v: nat)
    requires CanStep(c, st) && v < |c.makers|
    ensures v < |Next(c, st).makers| && Next(c, st).makers[v] == c.makers[v]
  {
  }

  lemma AccountedStep(c: Client, st: Step, v: nat)
    requires ClientInv(c) && CanStep(c, st) && Accounted(c, v)
    ensures Accounted(Next(c, st), v)
  {
    MakersStay(c, st, v);
    NextLibrary(c, st);
    if LibraryEvent(c, st).Some? { VersionsStay(c.lib, LibraryEvent(c, st).value); }
    if c.lib.versions[v].published {
      if LibraryEvent(c, st).Some? { StaysPublished(c.lib, LibraryEvent(c, st).value, v); }
    } else if st.Scribble? || c.makers[v] != st.t {
      OthersPhase(c, st, c.makers[v]);
    } else if st.Library? {
      WinnerPublishes(c, st.t, st.e, v);
    } else {
      KeepsNaming(c, st, v);
    }
  }

  /** In every run of fewer than 2^32 writers and readers, each version that was made has been published, or is the
      one that its maker goes on with: a writer that loses offers the same version again, and none is lost. */
  lemma {:induction false} NoVersionLost(clients: seq<Client>, steps: seq<Step>, k: nat, v: nat)
    requires IsRun(clients, steps) && |clients[0].phases| < MOD32 && k < |clients| && v < |clients[k].makers|
    ensures Accounted(clients[k], v)
    decreases k
  {
    if k > 0 {
      RunInv(clients, steps, k - 1);
      if v < |clients[k - 1].makers| {
        NoVersionLost(clients, steps, k - 1, v);
        AccountedStep(clients[k - 1], steps[k - 1], v);
      }
    }
  }
}
