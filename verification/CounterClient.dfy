/**
 The compare-and-swap counter of microbench/bench1/cmp_exchange/atomsnap_example.cpp, as
 transitions of client threads over the protocol machine.

 Thread 0 publishes the first version, holding (0, 0).  Then any number of writers and readers
 run their loops.  A writer acquires the current version, writes its values plus one into the
 data of its own unpublished version and offers it by compare-exchange; a reader acquires the
 current version and compares its two values with each other and with the value it saw last.
 Each thread holds at most one version, so a hold is named by its thread.  The 64-bit overflow
 of the values is not modelled.
 */
module CounterClient {
  import opened Words
  import opened Protocol
  import opened ProtocolInvariant
  import opened ProtocolTheorems

  datatype Data = Data(value1: int, value2: int)

  datatype Phase =
    | MainNew | MainMade(version: nat) | MainCall(version: nat) | MainDone
    | WriterNew                     // needs its first version
    | WriterReady(version: nat)     // at the head of the loop
    | WriterHolds(version: nat)     // acquired the old version
    | WriterWrote(version: nat)     // wrote the new data
    | WriterCall(version: nat)      // inside compare-exchange
    | WriterWon                     // returned or will return true, needs another version
    | WriterDone(version: nat)      // has a version to go on with, old one not yet released
    | ReaderReady(prev: int)
    | ReaderHolds(prev: int)        // acquired, not yet compared
    | ReaderDone(prev: int)         // compared, not yet released

  datatype Client = Client(
    lib: State,
    phases: seq<Phase>,
    data: seq<Data>,            // the payload of each incarnation
    makers: seq<nat>,           // history: the thread that made each incarnation
    published: seq<nat>)        // history: the incarnations in the order they became current

  datatype Step =
    | MakeVersion(t: nat, addr: U32, junk: Data)
    | StartExchange(t: nat)
    | AcquireOld(t: nat)
    | WriteNew(t: nat)
    | StartCompare(t: nat)
    | AcquireToRead(t: nat)
    | Compare(t: nat)
    | ReleaseHeld(t: nat)
    | Library(t: nat, e: Event)     // the next step of a library call of thread t
    | Scribble(memory: map<U32, Word>)

  /** The steps inside a library call. */
  predicate IsInside(e: Event) {
    || e.ExchangeSwap? || e.CompareLoad? || e.CompareCas? || e.DetachLoad? || e.DetachCas?
    || e.ClaimFinal? || e.RunCallback? || e.EnterFree?
  }

  predicate AtThread(c: Client, t: nat) {
    t < |c.phases| && t < |c.lib.pcs|
  }

  predicate Holds(c: Client, t: nat) {
    t in c.lib.holds && c.lib.holds[t].inc < |c.data|
  }

  function Held(c: Client, t: nat): Data
    requires Holds(c, t)
  {
    c.data[c.lib.holds[t].inc]
  }

  /** The step of the library that a step of a client thread makes, if any. */
  function LibraryEvent(c: Client, st: Step): Option<Event>
    requires !st.Scribble? ==> AtThread(c, st.t)
  {
    match st
    case MakeVersion(_, addr, _) => Some(Make(addr))
    case StartExchange(t) =>
      if c.phases[t].MainMade? && c.phases[t].version < |c.lib.versions|
      then Some(ExchangeBegin(t, 0, Some(c.phases[t].version), c.lib.versions[c.phases[t].version].addr)) else None
    case AcquireOld(t) => Some(Acquire(0, t))
    case WriteNew(_) => None
    case StartCompare(t) =>
      if c.phases[t].WriterWrote? && c.phases[t].version < |c.lib.versions| && t in c.lib.holds
      then Some(CompareBegin(t, 0, Some(t), c.lib.holds[t].addr, Some(c.phases[t].version),
                             c.lib.versions[c.phases[t].version].addr))
      else None
    case AcquireToRead(t) => Some(Acquire(0, t))
    case Compare(_) => None
    case ReleaseHeld(t) => Some(Release(t, t))
    case Library(_, e) => Some(e)
    case Scribble(memory) => Some(Clobber(memory))
  }

  predicate PhaseAllows(c: Client, st: Step)
    requires !st.Scribble? ==> AtThread(c, st.t)
  {
    match st
    case MakeVersion(t, _, _) =>
      && IsIdle(c.lib, t)
      && (c.phases[t].MainNew? || (c.published != [] && c.phases[t].WriterNew?) || c.phases[t].WriterWon?)
    case StartExchange(t) => c.phases[t].MainMade?
    case AcquireOld(t) => IsIdle(c.lib, t) && c.phases[t].WriterReady? && c.published != []
    case WriteNew(t) => c.phases[t].WriterHolds? && Holds(c, t) && c.phases[t].version < |c.data|
    case StartCompare(t) => c.phases[t].WriterWrote?
    case AcquireToRead(t) => IsIdle(c.lib, t) && c.phases[t].ReaderReady? && c.published != []
    case Compare(t) => c.phases[t].ReaderHolds? && Holds(c, t)
    case ReleaseHeld(t) => c.phases[t].WriterDone? || c.phases[t].ReaderDone?
    case Library(t, e) => IsInside(e) && e.t == t
    case Scribble(_) => true
  }

  predicate CanStep(c: Client, st: Step) {
    && (!st.Scribble? ==> AtThread(c, st.t))
    && PhaseAllows(c, st)
    && var e := LibraryEvent(c, st); (e.Some? ==> Enabled(c.lib, e.value)) && (e.None? ==> st.WriteNew? || st.Compare?)
  }

  /** The effect of a library step on the phase of its thread: a swap publishes, a failed
      compare-exchange gives the version back. */
  function AfterLibrary(c: Client, t: nat, e: Event): Client
    requires AtThread(c, t) && Enabled(c.lib, e)
  {
    var lib := Apply(c.lib, e);
    match c.phases[t]
    case MainCall(v) =>
      if e.ExchangeSwap? then c.(lib := lib, phases := c.phases[t := MainDone], published := c.published + [v])
      else c.(lib := lib)
    case WriterCall(v) =>
      if CompareSucceeds(c.lib, e)
      then c.(lib := lib, phases := c.phases[t := WriterWon], published := c.published + [v])
      else if CompareReturnsFalse(c.lib, e) then c.(lib := lib, phases := c.phases[t := WriterDone(v)])
      else c.(lib := lib)
    case _ => c.(lib := lib)
  }

  function MadePhase(phase: Phase, v: nat): Phase {
    if phase.MainNew? then MainMade(v) else if phase.WriterNew? then WriterReady(v) else WriterDone(v)
  }

  function NextRound(phase: Phase): Phase
    requires phase.WriterDone? || phase.ReaderDone?
  {
    if phase.WriterDone? then WriterReady(phase.version) else ReaderReady(phase.prev)
  }

  function Next(c: Client, st: Step): Client
    requires CanStep(c, st)
  {
    match st
    case MakeVersion(t, addr, junk) =>
      c.(lib := DoMake(c.lib, addr), makers := c.makers + [t],
         data := c.data + [if c.phases[t].MainNew? then Data(0, 0) else junk],
         phases := c.phases[t := MadePhase(c.phases[t], |c.lib.versions|)])
    case StartExchange(t) =>
      c.(lib := Apply(c.lib, LibraryEvent(c, st).value), phases := c.phases[t := MainCall(c.phases[t].version)])
    case AcquireOld(t) => c.(lib := DoAcquire(c.lib, 0, t), phases := c.phases[t := WriterHolds(c.phases[t].version)])
    case WriteNew(t) =>
      var d := Held(c, t);
      c.(data := c.data[c.phases[t].version := Data(d.value1 + 1, d.value2 + 1)],
         phases := c.phases[t := WriterWrote(c.phases[t].version)])
    case StartCompare(t) =>
      c.(lib := Apply(c.lib, LibraryEvent(c, st).value), phases := c.phases[t := WriterCall(c.phases[t].version)])
    case AcquireToRead(t) => c.(lib := DoAcquire(c.lib, 0, t), phases := c.phases[t := ReaderHolds(c.phases[t].prev)])
    case Compare(t) => c.(phases := c.phases[t := ReaderDone(Held(c, t).value1)])
    case ReleaseHeld(t) =>
      c.(lib := DoRelease(c.lib, t, t),
         phases := c.phases[t := NextRound(c.phases[t])])
    case Library(t, e) => AfterLibrary(c, t, e)
    case Scribble(memory) => c.(lib := c.lib.(inner := memory))
  }

  predicate IsWriter(phase: Phase) {
    phase == WriterNew
  }

  predicate IsReader(phase: Phase) {
    phase == ReaderReady(0)
  }

  /** Thread 0 sets up; the others are writers or readers about to start. */
  predicate IsInit(c: Client) {
    && |c.phases| > 0 && c.phases[0] == MainNew
    && (forall t :: 0 < t < |c.phases| ==> IsWriter(c.phases[t]) || IsReader(c.phases[t]))
    && c.lib == Init(1, |c.phases|) && c.data == [] && c.makers == [] && c.published == []
  }

  // The invariant.

  /** Incarnation `i` was the `value1`-th to become current, and holds that number twice. */
  predicate Ranked(c: Client, i: nat) {
    && i < |c.data| == |c.lib.versions|
    && c.data[i].value1 == c.data[i].value2
    && 0 <= c.data[i].value1 < |c.published|
    && c.published[c.data[i].value1] == i
  }

  predicate PublishedOk(c: Client, j: nat)
    requires j < |c.published|
  {
    var i := c.published[j];
    i < |c.data| == |c.lib.versions| && c.data[i] == Data(j, j) && c.lib.versions[i].published
  }

  predicate Owns(c: Client, t: nat, v: nat) {
    v < |c.lib.versions| == |c.makers| && c.makers[v] == t && !c.lib.versions[v].published
  }

  predicate HoldsRanked(c: Client, t: nat) {
    t in c.lib.holds && Ranked(c, c.lib.holds[t].inc)
  }

  predicate PhaseOk(c: Client, t: nat)
    requires AtThread(c, t)
  {
    match c.phases[t]
    case MainNew => c.published == []
    case MainMade(v) => Owns(c, t, v) && c.published == [] && v < |c.data| && c.data[v] == Data(0, 0)
    case MainCall(v) =>
      && Owns(c, t, v) && c.published == [] && v < |c.data| && c.data[v] == Data(0, 0)
      && c.lib.pcs[t].ExchangeReady? && c.lib.pcs[t].offer == Some(v) && c.lib.pcs[t].slot == 0
    case MainDone => true
    case WriterNew => true
    case WriterReady(v) => Owns(c, t, v)
    case WriterHolds(v) => Owns(c, t, v) && HoldsRanked(c, t)
    case WriterWrote(v) => Owns(c, t, v) && HoldsRanked(c, t) && Follows(c, t, v)
    case WriterCall(v) =>
      && Owns(c, t, v) && HoldsRanked(c, t) && Follows(c, t, v)
      && (c.lib.pcs[t].CompareReady? || c.lib.pcs[t].CompareLoop?)
      && c.lib.pcs[t].offer == Some(v) && c.lib.pcs[t].expected == Some(t) && c.lib.pcs[t].slot == 0
    case WriterWon => t in c.lib.holds
    case WriterDone(v) => Owns(c, t, v) && t in c.lib.holds
    case ReaderReady(prev) => 0 <= prev && (prev == 0 || prev < |c.published|)
    case ReaderHolds(prev) => 0 <= prev && HoldsRanked(c, t) && prev <= c.data[c.lib.holds[t].inc].value1
    case ReaderDone(prev) => 0 <= prev < |c.published| && t in c.lib.holds
  }

  /** The data of version `v` is one more than that of the version thread `t` holds. */
  predicate Follows(c: Client, t: nat, v: nat)
    requires HoldsRanked(c, t)
  {
    v < |c.data| && c.data[v] == Data(c.data[c.lib.holds[t].inc].value1 + 1, c.data[c.lib.holds[t].inc].value2 + 1)
  }

  /** A thread outside the publishing calls of its loop is inside no call that could publish. */
  predicate CallOk(c: Client, t: nat)
    requires AtThread(c, t)
  {
    && (c.lib.pcs[t].ExchangeReady? ==> c.phases[t].MainCall?)
    && (c.lib.pcs[t].CompareReady? || c.lib.pcs[t].CompareLoop? ==> c.phases[t].WriterCall?)
    && (c.phases[t].MainCall? || c.phases[t].MainMade? || c.phases[t].MainNew? ==> t == 0)
  }

  ghost predicate ClientOk(c: Client) {
    && |c.phases| == |c.lib.pcs| && |c.lib.control| == 1 && |c.lib.current| == 1
    && |c.data| == |c.makers| == |c.lib.versions|
    && (forall j {:trigger PublishedOk(c, j)} :: 0 <= j < |c.published| ==> PublishedOk(c, j))
    && c.lib.current[0] == (if c.published == [] then None else Some(c.published[|c.published| - 1]))
    && (forall t {:trigger PhaseOk(c, t)} :: 0 <= t < |c.phases| ==> PhaseOk(c, t))
    && (forall t {:trigger CallOk(c, t)} :: 0 <= t < |c.phases| ==> CallOk(c, t))
    && (forall k :: k in c.lib.holds ==> k < |c.phases|)
  }

  ghost predicate ClientInv(c: Client) {
    Inv(c.lib) && ClientOk(c)
  }

  // Frames.

  /** What a step of thread `t` leaves alone. */
  predicate ClientMoves(c: Client, c': Client, t: nat) {
    && |c'.phases| == |c.phases| == |c.lib.pcs| == |c'.lib.pcs|
    && (forall u :: 0 <= u < |c.phases| && u != t ==> c'.phases[u] == c.phases[u] && c'.lib.pcs[u] == c.lib.pcs[u])
    && (forall k :: k in c.lib.holds && k != t ==> k in c'.lib.holds && c'.lib.holds[k] == c.lib.holds[k])
    && |c.lib.versions| == |c.makers| == |c.data| <= |c'.data| == |c'.makers| == |c'.lib.versions|
    && (forall i :: 0 <= i < |c.makers| ==> VersionMoves(c, c', t, i))
    && |c.published| <= |c'.published|
    && (forall j :: 0 <= j < |c.published| ==> c'.published[j] == c.published[j])
    && (c.published == [] && t != 0 ==> c'.published == [])
  }

  /** Only its maker publishes or writes a version, and nobody writes a published one. */
  predicate VersionMoves(c: Client, c': Client, t: nat, i: nat)
    requires i < |c.lib.versions| == |c.makers| == |c.data| <= |c'.data| == |c'.makers| == |c'.lib.versions|
  {
    && c'.makers[i] == c.makers[i]
    && (c.lib.versions[i].published ==> c'.lib.versions[i].published && c'.data[i] == c.data[i])
    && (c.makers[i] != t ==> c'.lib.versions[i].published == c.lib.versions[i].published && c'.data[i] == c.data[i])
  }

  lemma RankedFrame(c: Client, c': Client, t: nat, i: nat)
    requires ClientMoves(c, c', t) && Ranked(c, i) && PublishedOk(c, c.data[i].value1)
    ensures Ranked(c', i) && c'.data[i] == c.data[i]
  {
    assert VersionMoves(c, c', t, i);
  }

  lemma PhaseFrame(c: Client, c': Client, t: nat, u: nat)
    requires ClientMoves(c, c', t) && AtThread(c, u) && u != t && PhaseOk(c, u) && CallOk(c, u)
    requires forall j {:trigger PublishedOk(c, j)} :: 0 <= j < |c.published| ==> PublishedOk(c, j)
    ensures PhaseOk(c', u) && CallOk(c', u)
  {
    var ph := c.phases[u];
    if || ph.MainMade? || ph.MainCall? || ph.WriterReady? || ph.WriterHolds?
       || ph.WriterWrote? || ph.WriterCall? || ph.WriterDone? {
      assert VersionMoves(c, c', t, ph.version);
    }
    if u in c.lib.holds && Ranked(c, c.lib.holds[u].inc) {
      assert PublishedOk(c, c.data[c.lib.holds[u].inc].value1);
      RankedFrame(c, c', t, c.lib.holds[u].inc);
    }
  }

  /** A step of thread `t` keeps `ClientOk` if it is local and leaves `t` and the last publication right. */
  lemma MovesKeep(c: Client, c': Client, t: nat)
    requires ClientOk(c) && AtThread(c, t) && ClientMoves(c, c', t)
    requires |c'.lib.control| == 1 && |c'.lib.current| == 1
    requires forall j :: |c.published| <= j < |c'.published| ==> PublishedOk(c', j)
    requires c'.lib.current[0] == (if c'.published == [] then None else Some(c'.published[|c'.published| - 1]))
    requires PhaseOk(c', t) && CallOk(c', t)
    requires forall k :: k in c'.lib.holds ==> k in c.lib.holds || k == t
    ensures ClientOk(c')
  {
    forall j | 0 <= j < |c'.published| ensures PublishedOk(c', j) {
      if j < |c.published| {
        assert PublishedOk(c, j);
        assert VersionMoves(c, c', t, c.published[j]);
      }
    }
    forall u | 0 <= u < |c'.phases| ensures PhaseOk(c', u) && CallOk(c', u) {
      if u != t {
        assert PhaseOk(c, u) && CallOk(c, u);
        PhaseFrame(c, c', t, u);
      }
    }
  }

  /** No version has more holders than there are threads. */
  lemma HoldersAreThreads(c: Client, i: nat)
    requires ClientOk(c)
    ensures Outstanding(c.lib, i) <= |c.phases|
  {
    ThreadCount(|c.phases|);
    var holders := Holders(c.lib.holds, i);
    assert holders <= ThreadSet(|c.phases|);
    assert ThreadSet(|c.phases|) == holders + (ThreadSet(|c.phases|) - holders);
  }

  function ThreadSet(n: nat): set<nat> {
    if n == 0 then {} else ThreadSet(n - 1) + {n - 1}
  }

  lemma {:induction false} ThreadCount(n: nat)
    ensures |ThreadSet(n)| == n && forall k :: k in ThreadSet(n) <==> 0 <= k < n
  {
    if n > 0 { ThreadCount(n - 1); }
  }

  // Steps.

  /** What a step of the library on behalf of thread `t`, publishing `offer`, does to what clients see. */
  ghost predicate LibMoves(lib: State, lib': State, t: nat, offer: Option<nat>) {
    && |lib'.pcs| == |lib.pcs| && |lib'.control| == |lib.control| && |lib'.current| == |lib.current|
    && |lib'.versions| == |lib.versions|
    && (forall u :: 0 <= u < |lib.pcs| && u != t ==> lib'.pcs[u] == lib.pcs[u])
    && (forall k :: k != t ==> (k in lib'.holds <==> k in lib.holds))
    && (forall k :: k in lib.holds && k != t ==> lib'.holds[k] == lib.holds[k])
    && (forall i :: 0 <= i < |lib.versions| ==>
          lib'.versions[i].published == (lib.versions[i].published || offer == Some(i)))
  }

  lemma AcquireMoves(lib: State, t: nat)
    requires Inv(lib) && CanAcquire(lib, 0, t)
    ensures var lib' := DoAcquire(lib, 0, t);
      LibMoves(lib, lib', t, None) && lib'.current == lib.current && lib'.pcs == lib.pcs
    ensures lib.current[0].Some? ==>
      t in DoAcquire(lib, 0, t).holds && DoAcquire(lib, 0, t).holds[t].inc == lib.current[0].value
  {
    assert SlotOk(lib, 0);
    if lib.current[0].Some? { assert VersionOk(lib, lib.current[0].value); }
  }

  lemma ReleaseMoves(lib: State, t: nat)
    requires Inv(lib) && CanRelease(lib, t, t)
    ensures var lib' := DoRelease(lib, t, t);
      && LibMoves(lib, lib', t, None) && lib'.current == lib.current
      && (lib'.pcs[t].Idle? || lib'.pcs[t].Finalizing?)
  {
    HeldLife(lib, t);
  }

  predicate IsDisposal(e: Event) {
    e.DetachLoad? || e.DetachCas? || e.ClaimFinal? || e.RunCallback? || e.EnterFree?
  }

  predicate IsPublishing(pc: Pc) {
    pc.ExchangeReady? || pc.CompareReady? || pc.CompareLoop?
  }

  lemma DisposalMoves(lib: State, e: Event)
    requires Inv(lib) && Enabled(lib, e) && IsDisposal(e)
    ensures var lib' := Apply(lib, e);
      && LibMoves(lib, lib', e.t, None) && lib'.current == lib.current && lib'.holds == lib.holds
      && !IsPublishing(lib'.pcs[e.t])
  {
    assert PcOk(lib, e.t);
  }

  lemma SwapMoves(lib: State, t: nat)
    requires Inv(lib) && AtPc(lib, t) && (lib.pcs[t].ExchangeReady? || lib.pcs[t].CompareLoop?)
    ensures CanSwap(lib, t)
    ensures var lib' := Swapped(lib, t);
      && LibMoves(lib, lib', t, lib.pcs[t].offer) && lib'.holds == lib.holds
      && lib'.current == lib.current[lib.pcs[t].slot := lib.pcs[t].offer] && !IsPublishing(lib'.pcs[t])
  {
    assert PcOk(lib, t) && SlotOk(lib, lib.pcs[t].slot);
  }

  lemma OfferMoves(lib: State, t: nat, v: nat, pc: Pc)
    requires AtPc(lib, t) && v < |lib.versions|
    ensures var lib' := DoOffer(lib, t, Some(v), pc);
      LibMoves(lib, lib', t, None) && lib'.current == lib.current && lib'.holds == lib.holds && lib'.pcs[t] == pc
  {
  }

  lemma CompareMoves(lib: State, e: Event)
    requires Inv(lib) && Enabled(lib, e) && (e.CompareLoad? || e.CompareCas?) && !CompareSucceeds(lib, e)
    ensures var lib' := Apply(lib, e); var pc, pc' := lib.pcs[e.t], lib'.pcs[e.t];
      && LibMoves(lib, lib', e.t, None) && lib'.current == lib.current && lib'.holds == lib.holds
      && if CompareReturnsFalse(lib, e) then pc'.Idle?
         else pc'.CompareLoop? && pc'.offer == pc.offer && pc'.expected == pc.expected && pc'.slot == pc.slot
  {
    assert PcOk(lib, e.t);
  }

  /** A client step that makes a step of the library, publishes `offer` and writes no data is local. */
  lemma LibMovesClient(c: Client, c': Client, t: nat, offer: Option<nat>)
    requires ClientOk(c) && AtThread(c, t) && LibMoves(c.lib, c'.lib, t, offer)
    requires c'.data == c.data && c'.makers == c.makers
    requires |c'.phases| == |c.phases| && forall u :: 0 <= u < |c.phases| && u != t ==> c'.phases[u] == c.phases[u]
    requires offer.Some? ==> offer.value < |c.makers| && c.makers[offer.value] == t
    requires c'.published == (if offer.Some? then c.published + [offer.value] else c.published)
    requires offer.Some? && c.published == [] ==> t == 0
    ensures ClientMoves(c, c', t)
  {
    forall i | 0 <= i < |c.makers| ensures VersionMoves(c, c', t, i) {}
  }

  /** The version a thread holds keeps its rank. */
  lemma HeldStaysRanked(c: Client, c': Client, t: nat)
    requires ClientOk(c) && ClientMoves(c, c', t) && HoldsRanked(c, t)
    requires t in c'.lib.holds && c'.lib.holds[t] == c.lib.holds[t]
    ensures HoldsRanked(c', t) && c'.data[c.lib.holds[t].inc] == c.data[c.lib.holds[t].inc]
  {
    assert PublishedOk(c, c.data[c.lib.holds[t].inc].value1);
    RankedFrame(c, c', t, c.lib.holds[t].inc);
  }

  lemma InitKeeps(c: Client)
    requires IsInit(c)
    ensures ClientInv(c)
  {
    ProtocolInvariant.InitKeeps(1, |c.phases|);
  }

  lemma MakeKeepsClient(c: Client, st: Step)
    requires ClientOk(c) && CanStep(c, st) && st.MakeVersion?
    ensures ClientOk(Next(c, st))
  {
    var c' := Next(c, st);
    assert PhaseOk(c, st.t) && CallOk(c, st.t);
    forall i | 0 <= i < |c.makers| ensures VersionMoves(c, c', st.t, i) {}
    MovesKeep(c, c', st.t);
  }

  lemma StartKeeps(c: Client, st: Step)
    requires ClientOk(c) && CanStep(c, st) && (st.StartExchange? || st.StartCompare?)
    ensures ClientOk(Next(c, st))
  {
    var c' := Next(c, st);
    var t := st.t;
    assert PhaseOk(c, t) && CallOk(c, t);
    OfferMoves(c.lib, t, c.phases[t].version, c'.lib.pcs[t]);
    LibMovesClient(c, c', t, None);
    if st.StartCompare? { HeldStaysRanked(c, c', t); }
    MovesKeep(c, c', t);
  }

  /** An acquire hands out the version published last. */
  lemma AcquireKeepsClient(c: Client, st: Step)
    requires ClientInv(c) && CanStep(c, st) && (st.AcquireOld? || st.AcquireToRead?)
    ensures ClientOk(Next(c, st))
  {
    var c' := Next(c, st);
    var t := st.t;
    assert PhaseOk(c, t) && CallOk(c, t) && PublishedOk(c, |c.published| - 1);
    AcquireMoves(c.lib, t);
    LibMovesClient(c, c', t, None);
    MovesKeep(c, c', t);
  }

  lemma WriteKeeps(c: Client, t: nat)
    requires ClientOk(c) && CanStep(c, WriteNew(t))
    ensures ClientOk(Next(c, WriteNew(t)))
  {
    var c' := Next(c, WriteNew(t));
    assert PhaseOk(c, t) && CallOk(c, t);
    forall i | 0 <= i < |c.makers| ensures VersionMoves(c, c', t, i) {}
    HeldStaysRanked(c, c', t);
    MovesKeep(c, c', t);
  }

  lemma CompareKeeps(c: Client, t: nat)
    requires ClientOk(c) && CanStep(c, Compare(t))
    ensures ClientOk(Next(c, Compare(t)))
  {
    var c' := Next(c, Compare(t));
    assert PhaseOk(c, t) && CallOk(c, t);
    forall i | 0 <= i < |c.makers| ensures VersionMoves(c, c', t, i) {}
    MovesKeep(c, c', t);
  }

  /** Giving up the hold ends the round of the loop. */
  lemma ReleasedKeeps(c: Client, c': Client, t: nat)
    requires ClientOk(c) && AtThread(c, t) && (c.phases[t].WriterDone? || c.phases[t].ReaderDone?)
    requires LibMoves(c.lib, c'.lib, t, None) && c'.lib.current == c.lib.current && !IsPublishing(c'.lib.pcs[t])
    requires c' == c.(lib := c'.lib, phases := c.phases[t := NextRound(c.phases[t])])
    ensures ClientOk(c')
  {
    assert PhaseOk(c, t) && CallOk(c, t);
    LibMovesClient(c, c', t, None);
    MovesKeep(c, c', t);
  }

  lemma ReleaseKeepsClient(c: Client, t: nat)
    requires ClientInv(c) && CanStep(c, ReleaseHeld(t))
    ensures ClientOk(Next(c, ReleaseHeld(t)))
  {
    ReleaseMoves(c.lib, t);
    ReleasedKeeps(c, Next(c, ReleaseHeld(t)), t);
  }

  /** The steps of a call that dispose of a version change no publication, no hold and no slot. */
  lemma DisposalKeeps(c: Client, lib: State, t: nat)
    requires ClientOk(c) && AtThread(c, t) && LibMoves(c.lib, lib, t, None)
    requires lib.current == c.lib.current && lib.holds == c.lib.holds
    requires !IsPublishing(c.lib.pcs[t]) && !IsPublishing(lib.pcs[t])
    ensures ClientOk(c.(lib := lib))
  {
    var c' := c.(lib := lib);
    assert PhaseOk(c, t) && CallOk(c, t);
    LibMovesClient(c, c', t, None);
    if HoldsRanked(c, t) { HeldStaysRanked(c, c', t); }
    MovesKeep(c, c', t);
  }

  /** The first publication. */
  lemma FirstKeeps(c: Client, lib: State, t: nat, v: nat)
    requires ClientOk(c) && AtThread(c, t) && c.phases[t] == MainCall(v) && LibMoves(c.lib, lib, t, Some(v))
    requires lib.current == [Some(v)] && lib.holds == c.lib.holds && !IsPublishing(lib.pcs[t])
    ensures ClientOk(c.(lib := lib, phases := c.phases[t := MainDone], published := c.published + [v]))
  {
    var c' := c.(lib := lib, phases := c.phases[t := MainDone], published := c.published + [v]);
    assert PhaseOk(c, t) && CallOk(c, t);
    LibMovesClient(c, c', t, Some(v));
    assert PublishedOk(c', 0);
    MovesKeep(c, c', t);
  }

  /** A successful compare-exchange of the version published last publishes the next number. */
  lemma WinKeeps(c: Client, lib: State, t: nat, v: nat)
    requires ClientOk(c) && AtThread(c, t) && c.phases[t] == WriterCall(v) && LibMoves(c.lib, lib, t, Some(v))
    requires t in c.lib.holds && c.lib.current[0] == Some(c.lib.holds[t].inc)
    requires lib.current == [Some(v)] && lib.holds == c.lib.holds && !IsPublishing(lib.pcs[t])
    ensures v < |c.data| && c.data[v] == Data(|c.published|, |c.published|)
    ensures ClientOk(c.(lib := lib, phases := c.phases[t := WriterWon], published := c.published + [v]))
  {
    var c' := c.(lib := lib, phases := c.phases[t := WriterWon], published := c.published + [v]);
    assert PhaseOk(c, t) && CallOk(c, t);
    assert PublishedOk(c, |c.published| - 1);
    LibMovesClient(c, c', t, Some(v));
    assert PublishedOk(c', |c.published|);
    MovesKeep(c, c', t);
  }

  lemma MissKeeps(c: Client, lib: State, t: nat, v: nat, returned: bool)
    requires ClientOk(c) && AtThread(c, t) && c.phases[t] == WriterCall(v) && LibMoves(c.lib, lib, t, None)
    requires lib.current == c.lib.current && lib.holds == c.lib.holds
    requires c.lib.pcs[t].CompareReady? || c.lib.pcs[t].CompareLoop?
    requires if returned then lib.pcs[t].Idle? else
      && lib.pcs[t].CompareLoop? && lib.pcs[t].offer == c.lib.pcs[t].offer
      && lib.pcs[t].expected == c.lib.pcs[t].expected && lib.pcs[t].slot == c.lib.pcs[t].slot
    ensures ClientOk(c.(lib := lib, phases := if returned then c.phases[t := WriterDone(v)] else c.phases))
  {
    var c' := c.(lib := lib, phases := if returned then c.phases[t := WriterDone(v)] else c.phases);
    assert PhaseOk(c, t) && CallOk(c, t);
    LibMovesClient(c, c', t, None);
    HeldStaysRanked(c, c', t);
    MovesKeep(c, c', t);
  }

  lemma DisposeKeepsClient(c: Client, t: nat, e: Event)
    requires ClientInv(c) && CanStep(c, Library(t, e)) && IsDisposal(e)
    ensures ClientOk(AfterLibrary(c, t, e))
  {
    assert PhaseOk(c, t) && CallOk(c, t);
    DisposalMoves(c.lib, e);
    DisposalKeeps(c, Apply(c.lib, e), t);
  }

  lemma FirstKeepsClient(c: Client, t: nat, e: Event)
    requires ClientInv(c) && CanStep(c, Library(t, e)) && e.ExchangeSwap?
    ensures ClientOk(AfterLibrary(c, t, e))
  {
    assert PhaseOk(c, t) && CallOk(c, t);
    SwapMoves(c.lib, t);
    FirstKeeps(c, Apply(c.lib, e), t, c.phases[t].version);
  }

  lemma WinKeepsClient(c: Client, t: nat, e: Event)
    requires ClientInv(c) && CanStep(c, Library(t, e)) && CompareSucceeds(c.lib, e)
    ensures ClientOk(AfterLibrary(c, t, e))
  {
    assert PhaseOk(c, t) && CallOk(c, t);
    CompareWithoutAba(c.lib, e);
    assert PcOk(c.lib, t);
    SwapMoves(c.lib, t);
    WinKeeps(c, Apply(c.lib, e), t, c.phases[t].version);
  }

  lemma MissKeepsClient(c: Client, t: nat, e: Event)
    requires ClientInv(c) && CanStep(c, Library(t, e)) && !IsDisposal(e) && !e.ExchangeSwap?
    requires !CompareSucceeds(c.lib, e)
    ensures ClientOk(AfterLibrary(c, t, e))
  {
    assert PhaseOk(c, t) && CallOk(c, t);
    CompareMoves(c.lib, e);
    MissKeeps(c, Apply(c.lib, e), t, c.phases[t].version, CompareReturnsFalse(c.lib, e));
  }

  lemma LibraryKeeps(c: Client, t: nat, e: Event)
    requires ClientInv(c) && CanStep(c, Library(t, e))
    ensures ClientOk(AfterLibrary(c, t, e))
  {
    if IsDisposal(e) {
      DisposeKeepsClient(c, t, e);
    } else if e.ExchangeSwap? {
      FirstKeepsClient(c, t, e);
    } else if CompareSucceeds(c.lib, e) {
      WinKeepsClient(c, t, e);
    } else {
      MissKeepsClient(c, t, e);
    }
  }

  /** Every step of every client thread keeps the client's part of the invariant. */
  lemma StepKeepsClient(c: Client, st: Step)
    requires ClientInv(c) && CanStep(c, st)
    ensures ClientOk(Next(c, st))
  {
    match st
    case MakeVersion(_, _, _) => MakeKeepsClient(c, st);
    case StartExchange(_) => StartKeeps(c, st);
    case AcquireOld(_) => AcquireKeepsClient(c, st);
    case WriteNew(t) => WriteKeeps(c, t);
    case StartCompare(_) => StartKeeps(c, st);
    case AcquireToRead(_) => AcquireKeepsClient(c, st);
    case Compare(t) => CompareKeeps(c, t);
    case ReleaseHeld(t) => ReleaseKeepsClient(c, t);
    case Library(t, e) => LibraryKeeps(c, t, e);
    case Scribble(memory) => ScribbleKeeps(c, memory);
  }

  lemma ScribbleKeeps(c: Client, memory: map<U32, Word>)
    requires ClientOk(c)
    ensures ClientOk(c.(lib := c.lib.(inner := memory)))
  {
    var c' := c.(lib := c.lib.(inner := memory));
    forall j | 0 <= j < |c'.published| ensures PublishedOk(c', j) { assert PublishedOk(c, j); }
    forall t | 0 <= t < |c'.phases| ensures PhaseOk(c', t) && CallOk(c', t) { assert PhaseOk(c, t) && CallOk(c, t); }
  }

  /** A client step is a step of the library, or leaves it alone. */
  lemma NextLibrary(c: Client, st: Step)
    requires CanStep(c, st)
    ensures var e := LibraryEvent(c, st);
      Next(c, st).lib == (if e.Some? then Apply(c.lib, e.value) else c.lib) && (e.Some? ==> !e.value.FreeVersion?)
  {
  }

  lemma FewThreadsFewHolders(c: Client)
    requires ClientOk(c) && |c.phases| < MOD32
    ensures FewHolders(c.lib)
  {
    forall i | 0 <= i < |c.lib.versions| ensures Outstanding(c.lib, i) < MOD32 { HoldersAreThreads(c, i); }
  }

  /** The library's part of the invariant is kept too: with fewer than 2^32 threads no version can
      have 2^32 holders. */
  lemma StepKeepsLibrary(c: Client, st: Step)
    requires ClientInv(c) && CanStep(c, st) && |c.phases| < MOD32
    ensures ClientInv(Next(c, st)) && |Next(c, st).phases| == |c.phases|
  {
    StepKeepsClient(c, st);
    NextLibrary(c, st);
    PhasesStay(c, st);
    var e := LibraryEvent(c, st);
    if e.Some? {
      StepKeeps(c.lib, e.value);
      FewThreadsFewHolders(Next(c, st));
      CoreAndFewHolders(Next(c, st).lib);
    }
  }

  lemma PhasesStay(c: Client, st: Step)
    requires CanStep(c, st)
    ensures |Next(c, st).phases| == |c.phases|
  {
  }
}
