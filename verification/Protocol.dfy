/**
 The split reference-count protocol of atomsnap.c as a step machine.

 Every atomic operation is one step.  Between two steps of a call the thread's
 progress is its `Pc`, which holds the call's local variables.  The fields
 `control` and `inner` are the shared memory; `versions`, `current` and `holds`
 are history: no step branches on them, except that a client only makes the calls
 that the usage rules allow.  A version is named by its incarnation, its index in
 `versions`, because the address of a slot is used again after the slot is freed.
 A pointer to a version is the handle of its slot.
 */
module Protocol {
  import opened Words

  /** Where an incarnation is in its life.  `thread` is the one that drives it on. */
  datatype Life =
    | Private                // made, not yet passed to a publishing call
    | Offered(thread: nat)       // passed to an exchange or compare-exchange in progress
    | Published(slot: nat)
    | Unlinked(thread: nat)      // swapped out, DETACHED not yet set
    | Detached               // DETACHED set, counter not zero
    | Doomed(thread: nat)        // DETACHED seen with counter zero, FINALIZED not yet claimed
    | Claimed(thread: nat)       // FINALIZED claimed, callback not yet run
    | Discarded(thread: nat)     // passed to atomsnap_free_version, callback not yet run
    | Destroyed(thread: nat)     // callback run, slot not yet given to free_slot
    | Gone                   // slot given to free_slot

  datatype Version = Version(
    addr: U32,
    life: Life,
    published: bool,         // was ever current
    acquires: nat,
    releases: nat,
    zeroSights: nat,         // steps that saw DETACHED with counter zero
    callbacks: nat)          // runs of free_impl

  datatype Hold = Hold(addr: U32, inc: nat)

  datatype Pc =
    | Idle
    | ExchangeReady(slot: nat, handle: U32, offer: Option<nat>)
    | CompareReady(slot: nat, expHandle: U32, expected: Option<nat>, handle: U32, offer: Option<nat>)
    | CompareLoop(slot: nat, expHandle: U32, expected: Option<nat>, handle: U32, offer: Option<nat>, cur: Word)
    | DetachReady(addr: U32, refs: U32, inc: nat, owed: nat)
    | DetachLoop(addr: U32, refs: U32, inc: nat, owed: nat, cur: Word, seen: nat, fails: nat)
    | Finalizing(addr: U32, inc: nat)
    | Calling(addr: U32, inc: nat)
    | Freeing(addr: U32, inc: nat)

  datatype State = State(
    control: seq<Word>,
    inner: map<U32, Word>,
    pcs: seq<Pc>,
    aborted: bool,
    versions: seq<Version>,
    current: seq<Option<nat>>,
    holds: map<nat, Hold>)

  datatype Event =
    | Make(addr: U32)
    | Acquire(slot: nat, hold: nat)
    | Release(t: nat, hold: nat)
    | ExchangeBegin(t: nat, slot: nat, offer: Option<nat>, handle: U32)
    | ExchangeSwap(t: nat)
    | CompareBegin(t: nat, slot: nat, expected: Option<nat>, expHandle: U32, offer: Option<nat>, handle: U32)
    | CompareLoad(t: nat)
    | CompareCas(t: nat, spurious: bool)
    | DetachLoad(t: nat)
    | DetachCas(t: nat, spurious: bool)
    | ClaimFinal(t: nat)
    | RunCallback(t: nat)
    | EnterFree(t: nat)
    | FreeVersion(t: nat, inc: nat)
    | Clobber(memory: map<U32, Word>)

  function InnerAt(s: State, addr: U32): Word {
    if addr in s.inner then s.inner[addr] else Word(0, 0)
  }

  predicate IsLive(s: State, i: nat) {
    i < |s.versions| && !s.versions[i].life.Gone?
  }

  /** The holders of incarnation `i`. */
  function Holders(holds: map<nat, Hold>, i: nat): set<nat> {
    set k | k in holds && holds[k].inc == i
  }

  function Outstanding(s: State, i: nat): nat {
    |Holders(s.holds, i)|
  }

  predicate Pins(pc: Pc, hold: nat) {
    (pc.CompareReady? || pc.CompareLoop?) && pc.expected == Some(hold)
  }

  /** `pc` has been handed incarnation `i` to publish and has not done so yet. */
  predicate Offers(pc: Pc, i: nat) {
    (pc.ExchangeReady? || pc.CompareReady? || pc.CompareLoop?) && pc.offer == Some(i)
  }

  /** The `new_ver` argument and the handle read from it: NULL, or a private version of the caller's. */
  predicate NewVersionOk(s: State, offer: Option<nat>, handle: U32) {
    match offer
    case None => handle == HANDLE_NULL
    case Some(i) => i < |s.versions| && s.versions[i].life.Private? && handle == s.versions[i].addr
  }

  /** The `expected` argument and the handle read from it: NULL, or a version the caller holds. */
  predicate ExpectedOk(s: State, expected: Option<nat>, handle: U32) {
    match expected
    case None => handle == HANDLE_NULL
    case Some(k) => k in s.holds && handle == s.holds[k].addr
  }

  predicate AtPc(s: State, t: nat) {
    t < |s.pcs|
  }

  predicate IsIdle(s: State, t: nat) {
    t < |s.pcs| && s.pcs[t].Idle?
  }

  predicate InRange(s: State, slot: nat) {
    slot < |s.control| && slot < |s.current|
  }

  predicate CanMake(s: State, addr: U32) {
    addr != HANDLE_NULL && forall i :: 0 <= i < |s.versions| ==> s.versions[i].life.Gone? || s.versions[i].addr != addr
  }

  predicate CanAcquire(s: State, slot: nat, hold: nat) {
    InRange(s, slot) && hold !in s.holds
  }

  predicate CanRelease(s: State, t: nat, hold: nat) {
    IsIdle(s, t) && hold in s.holds && forall u :: 0 <= u < |s.pcs| ==> !Pins(s.pcs[u], hold)
  }

  predicate CanExchange(s: State, t: nat, slot: nat, offer: Option<nat>, handle: U32) {
    IsIdle(s, t) && InRange(s, slot) && NewVersionOk(s, offer, handle)
  }

  predicate CanCompare(s: State, t: nat, slot: nat, expected: Option<nat>, expHandle: U32, offer: Option<nat>,
                       handle: U32) {
    CanExchange(s, t, slot, offer, handle) && ExpectedOk(s, expected, expHandle)
  }

  predicate CanFree(s: State, t: nat, inc: nat) {
    IsIdle(s, t) && inc < |s.versions| && s.versions[inc].life.Private?
  }

  predicate CanClobber(s: State, memory: map<U32, Word>) {
    forall i :: 0 <= i < |s.versions| ==>
      s.versions[i].life.Gone?
      || (s.versions[i].addr in memory && memory[s.versions[i].addr] == InnerAt(s, s.versions[i].addr))
  }

  /** The calls and steps that can happen next.  `CanMake` is what the allocator promises;
      `CanAcquire` to `CanFree` hold the usage rules of the library. */
  predicate Enabled(s: State, e: Event) {
    !s.aborted &&
    match e
    case Make(addr) => CanMake(s, addr)
    case Acquire(slot, hold) => CanAcquire(s, slot, hold)
    case Release(t, hold) => CanRelease(s, t, hold)
    case ExchangeBegin(t, slot, offer, handle) => CanExchange(s, t, slot, offer, handle)
    case ExchangeSwap(t) => AtPc(s, t) && s.pcs[t].ExchangeReady? && InRange(s, s.pcs[t].slot)
    case CompareBegin(t, slot, expected, expHandle, offer, handle) =>
      CanCompare(s, t, slot, expected, expHandle, offer, handle)
    case CompareLoad(t) => AtPc(s, t) && s.pcs[t].CompareReady? && InRange(s, s.pcs[t].slot)
    case CompareCas(t, _) => AtPc(s, t) && s.pcs[t].CompareLoop? && InRange(s, s.pcs[t].slot)
    case DetachLoad(t) => AtPc(s, t) && s.pcs[t].DetachReady?
    case DetachCas(t, _) => AtPc(s, t) && s.pcs[t].DetachLoop?
    case ClaimFinal(t) => AtPc(s, t) && s.pcs[t].Finalizing?
    case RunCallback(t) => AtPc(s, t) && s.pcs[t].Calling?
    case EnterFree(t) => AtPc(s, t) && s.pcs[t].Freeing?
    case FreeVersion(t, inc) => CanFree(s, t, inc)
    case Clobber(memory) => CanClobber(s, memory)
  }

  function Goto(s: State, t: nat, pc: Pc): State
    requires AtPc(s, t)
  {
    s.(pcs := s.pcs[t := pc])
  }

  function PutLife(versions: seq<Version>, i: nat, life: Life): seq<Version> {
    if i < |versions| then versions[i := versions[i].(life := life)] else versions
  }

  function PutOffer(versions: seq<Version>, offer: Option<nat>, life: Life): seq<Version> {
    if offer.Some? then PutLife(versions, offer.value, life) else versions
  }

  function PutPublished(versions: seq<Version>, offer: Option<nat>, slot: nat): seq<Version> {
    if offer.Some? && offer.value < |versions|
    then versions[offer.value := versions[offer.value].(life := Published(slot), published := true)]
    else versions
  }

  function PutAcquired(versions: seq<Version>, i: nat): seq<Version> {
    if i < |versions| then versions[i := versions[i].(acquires := versions[i].acquires + 1)] else versions
  }

  function PutReleased(versions: seq<Version>, i: nat): seq<Version> {
    if i < |versions| then versions[i := versions[i].(releases := versions[i].releases + 1)] else versions
  }

  function PutDoomed(versions: seq<Version>, i: nat, t: nat): seq<Version> {
    if i < |versions|
    then versions[i := versions[i].(life := Doomed(t), zeroSights := versions[i].zeroSights + 1)]
    else versions
  }

  function PutDestroyed(versions: seq<Version>, i: nat, t: nat): seq<Version> {
    if i < |versions|
    then versions[i := versions[i].(life := Destroyed(t), callbacks := versions[i].callbacks + 1)]
    else versions
  }

  function IncOf(current: Option<nat>): nat {
    if current.Some? then current.value else 0
  }

  function ReleasesOf(s: State, i: nat): nat {
    if i < |s.versions| then s.versions[i].releases else 0
  }

  /** The condition that `try_finalize` tests on its argument. */
  predicate SeesZero(state: Word) {
    HasDetached(state.lo) && state.hi == 0
  }

  /** The effect common to a swap and a successful compare-and-swap on a control block
      that held `prior`: the new word has reference count zero, and the caller goes on
      to detach the old version if there was one. */
  function SwapIn(s: State, t: nat, slot: nat, offer: Option<nat>, handle: U32, prior: Word): State
    requires AtPc(s, t) && InRange(s, slot)
  {
    var i := IncOf(s.current[slot]);
    var empty := prior.lo == HANDLE_NULL;
    s.(control := s.control[slot := Word(0, handle)],
       current := s.current[slot := offer],
       versions := PutPublished(if empty then s.versions else PutLife(s.versions, i, Unlinked(t)), offer, slot),
       pcs := s.pcs[t := if empty then Idle else DetachReady(prior.lo, prior.hi, i, Outstanding(s, i))])
  }

  function DoAcquire(s: State, slot: nat, hold: nat): State
    requires InRange(s, slot)
  {
    var word := s.control[slot];
    var i := IncOf(s.current[slot]);
    if word.lo == HANDLE_NULL then s.(control := s.control[slot := AddUpper(word)])
    else
      s.(control := s.control[slot := AddUpper(word)],
         holds := s.holds[hold := Hold(word.lo, i)],
         versions := PutAcquired(s.versions, i))
  }

  function DoRelease(s: State, t: nat, hold: nat): State
    requires AtPc(s, t) && hold in s.holds
  {
    var addr := s.holds[hold].addr;
    var i := s.holds[hold].inc;
    var now := AddUpper(InnerAt(s, addr));
    var versions := PutReleased(s.versions, i);
    s.(inner := s.inner[addr := now],
       holds := s.holds - {hold},
       versions := if SeesZero(now) then PutDoomed(versions, i, t) else versions,
       pcs := s.pcs[t := if SeesZero(now) then Finalizing(addr, i) else Idle])
  }

  /** Returning false: the caller keeps its unpublished version. */
  function CompareFails(s: State, t: nat, offer: Option<nat>): State
    requires AtPc(s, t)
  {
    s.(versions := PutOffer(s.versions, offer, Private), pcs := s.pcs[t := Idle])
  }

  function DoCompareLoad(s: State, t: nat): State
    requires AtPc(s, t) && s.pcs[t].CompareReady? && InRange(s, s.pcs[t].slot)
  {
    var CompareReady(slot, expHandle, expected, handle, offer) := s.pcs[t];
    var cur := s.control[slot];
    if cur.lo != expHandle then CompareFails(s, t, offer)
    else Goto(s, t, CompareLoop(slot, expHandle, expected, handle, offer, cur))
  }

  function DoCompareCas(s: State, t: nat, spurious: bool): State
    requires AtPc(s, t) && s.pcs[t].CompareLoop? && InRange(s, s.pcs[t].slot)
  {
    var CompareLoop(slot, expHandle, expected, handle, offer, cur) := s.pcs[t];
    var now := s.control[slot];
    if now == cur && !spurious then SwapIn(s, t, slot, offer, handle, cur)
    else if now.lo != expHandle then CompareFails(s, t, offer)
    else Goto(s, t, CompareLoop(slot, expHandle, expected, handle, offer, now))
  }

  function DoDetachCas(s: State, t: nat, spurious: bool): State
    requires AtPc(s, t) && s.pcs[t].DetachLoop?
  {
    var DetachLoop(addr, refs, i, owed, cur, seen, fails) := s.pcs[t];
    var now := InnerAt(s, addr);
    if now == cur && !spurious then
      var next := Word(Sub32(cur.hi, refs), SetDetached(cur.lo));
      s.(inner := s.inner[addr := next],
         versions := if SeesZero(next) then PutDoomed(s.versions, i, t) else PutLife(s.versions, i, Detached),
         pcs := s.pcs[t := if SeesZero(next) then Finalizing(addr, i) else Idle])
    else
      Goto(s, t, DetachLoop(addr, refs, i, owed, now, ReleasesOf(s, i), if now == cur then fails else fails + 1))
  }

  function DoClaimFinal(s: State, t: nat): State
    requires AtPc(s, t) && s.pcs[t].Finalizing?
  {
    var Finalizing(addr, i) := s.pcs[t];
    var prior := InnerAt(s, addr);
    var inner := s.inner[addr := Word(prior.hi, SetFinalized(prior.lo))];
    if HasFinalized(prior.lo) then s.(inner := inner, aborted := true)
    else s.(inner := inner, versions := PutLife(s.versions, i, Claimed(t)), pcs := s.pcs[t := Calling(addr, i)])
  }

  function DoMake(s: State, addr: U32): State {
    s.(inner := s.inner[addr := Word(0, 0)],
       versions := s.versions + [Version(addr, Private, false, 0, 0, 0, 0)])
  }

  /** Entering a publishing call at `pc`. */
  function DoOffer(s: State, t: nat, offer: Option<nat>, pc: Pc): State
    requires AtPc(s, t)
  {
    s.(versions := PutOffer(s.versions, offer, Offered(t)), pcs := s.pcs[t := pc])
  }

  function DoDetachLoad(s: State, t: nat): State
    requires AtPc(s, t) && s.pcs[t].DetachReady?
  {
    var DetachReady(addr, refs, i, owed) := s.pcs[t];
    Goto(s, t, DetachLoop(addr, refs, i, owed, InnerAt(s, addr), ReleasesOf(s, i), 0))
  }

  function DoRunCallback(s: State, t: nat): State
    requires AtPc(s, t) && s.pcs[t].Calling?
  {
    var Calling(addr, i) := s.pcs[t];
    s.(versions := PutDestroyed(s.versions, i, t), pcs := s.pcs[t := Freeing(addr, i)])
  }

  function DoEnterFree(s: State, t: nat): State
    requires AtPc(s, t) && s.pcs[t].Freeing?
  {
    s.(versions := PutLife(s.versions, s.pcs[t].inc, Gone), pcs := s.pcs[t := Idle])
  }

  function DoFreeVersion(s: State, t: nat, inc: nat): State
    requires AtPc(s, t) && inc < |s.versions|
  {
    s.(versions := PutLife(s.versions, inc, Discarded(t)), pcs := s.pcs[t := Calling(s.versions[inc].addr, inc)])
  }

  function Apply(s: State, e: Event): State
    requires Enabled(s, e)
  {
    match e
    case Make(addr) => DoMake(s, addr)
    case Acquire(slot, hold) => DoAcquire(s, slot, hold)
    case Release(t, hold) => DoRelease(s, t, hold)
    case ExchangeBegin(t, slot, offer, handle) => DoOffer(s, t, offer, ExchangeReady(slot, handle, offer))
    case ExchangeSwap(t) =>
      SwapIn(s, t, s.pcs[t].slot, s.pcs[t].offer, s.pcs[t].handle, s.control[s.pcs[t].slot])
    case CompareBegin(t, slot, expected, expHandle, offer, handle) =>
      DoOffer(s, t, offer, CompareReady(slot, expHandle, expected, handle, offer))
    case CompareLoad(t) => DoCompareLoad(s, t)
    case CompareCas(t, spurious) => DoCompareCas(s, t, spurious)
    case DetachLoad(t) => DoDetachLoad(s, t)
    case DetachCas(t, spurious) => DoDetachCas(s, t, spurious)
    case ClaimFinal(t) => DoClaimFinal(s, t)
    case RunCallback(t) => DoRunCallback(s, t)
    case EnterFree(t) => DoEnterFree(s, t)
    case FreeVersion(t, inc) => DoFreeVersion(s, t, inc)
    case Clobber(memory) => s.(inner := memory)
  }

  /** `slots` empty control blocks and `threads` threads outside any call. */
  function Init(slots: nat, threads: nat): State {
    State(
      seq(slots, _ => Word(0, HANDLE_NULL)), map[], seq(threads, _ => Idle), false,
      [], seq(slots, _ => None), map[])
  }

  /** A run: `states[k+1]` is what the enabled event `events[k]` makes of `states[k]`. */
  ghost predicate IsRun(states: seq<State>, events: seq<Event>) {
    && |states| == |events| + 1
    && (exists slots: nat, threads: nat :: states[0] == Init(slots, threads))
    && forall k {:trigger Enabled(states[k], events[k])} :: 0 <= k < |events| ==>
      Enabled(states[k], events[k]) && states[k + 1] == Apply(states[k], events[k])
  }
}
