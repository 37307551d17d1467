/**
 What every step of the reclamation protocol keeps.

 `Core` ties the packed words to the history: counters modulo 2^32, flags, which
 thread is about to do what.  It needs no bound on the number of holds.  `Inv` adds
 that no version condemned to finalization is still held.
 */
module ProtocolInvariant {
  import opened Words
  import opened Protocol

  /** The inner state word that a version in a given stage of its life must have,
      when `n` of its holds are outstanding. */
  predicate WordOk(v: Version, w: Word, n: nat) {
    match v.life
    case Private => w == Word(0, 0) && v.acquires == 0
    case Offered(_) => w == Word(0, 0) && v.acquires == 0
    case Discarded(_) => v.acquires == 0
    case Published(_) => w == Word(Wrap(v.releases), 0)
    case Unlinked(_) => w == Word(Wrap(v.releases), 0)
    case Detached => w == Word(Wrap(v.releases - v.acquires), DETACHED) && n % MOD32 != 0
    case Doomed(_) => w == Word(0, DETACHED) && n % MOD32 == 0
    case Claimed(_) => w == Word(0, DETACHED + FINALIZED) && n == 0
    case Destroyed(_) => n == 0
    case Gone => n == 0
  }

  /** Published at most once, condemned at most once, called back exactly once at the end. */
  predicate BooksOk(v: Version) {
    && v.callbacks == (if v.life.Destroyed? || v.life.Gone? then 1 else 0)
    && (v.life.Private? || v.life.Offered? || v.life.Discarded? ==> !v.published)
    && (v.life.Published? || v.life.Unlinked? || v.life.Detached? || v.life.Doomed? || v.life.Claimed? ==> v.published)
    && v.zeroSights ==
       (if v.life.Doomed? || v.life.Claimed? then 1
        else if (v.life.Destroyed? || v.life.Gone?) && v.published then 1 else 0)
  }

  /** The thread named in the life of version `i` is at the matching point of its call. */
  predicate Backed(s: State, i: nat)
    requires i < |s.versions|
  {
    match s.versions[i].life
    case Offered(t) => AtPc(s, t) && Offers(s.pcs[t], i)
    case Published(x) => x < |s.current| && s.current[x] == Some(i)
    case Unlinked(t) => AtPc(s, t) && (s.pcs[t].DetachReady? || s.pcs[t].DetachLoop?) && s.pcs[t].inc == i
    case Doomed(t) => AtPc(s, t) && s.pcs[t].Finalizing? && s.pcs[t].inc == i
    case Claimed(t) => AtPc(s, t) && s.pcs[t].Calling? && s.pcs[t].inc == i
    case Discarded(t) => AtPc(s, t) && s.pcs[t].Calling? && s.pcs[t].inc == i
    case Destroyed(t) => AtPc(s, t) && s.pcs[t].Freeing? && s.pcs[t].inc == i
    case _ => true
  }

  ghost predicate VersionOk(s: State, i: nat)
    requires i < |s.versions|
  {
    match s.versions[i]
    case Version(addr, life, _, acquires, releases, _, _) =>
      && addr != HANDLE_NULL
      && (!life.Gone? ==> addr in s.inner)
      && releases + Outstanding(s, i) == acquires
      && WordOk(s.versions[i], InnerAt(s, addr), Outstanding(s, i))
      && BooksOk(s.versions[i])
      && Backed(s, i)
  }

  predicate IsVersionAt(s: State, i: nat, addr: U32) {
    i < |s.versions| && s.versions[i].addr == addr
  }

  predicate OfferOk(s: State, t: nat, slot: nat, offer: Option<nat>, handle: U32) {
    && slot < |s.control|
    && match offer
       case None => handle == HANDLE_NULL
       case Some(i) => IsVersionAt(s, i, handle) && s.versions[i].life == Offered(t)
  }

  predicate DetachOk(s: State, t: nat, addr: U32, refs: U32, i: nat, owed: nat) {
    && IsVersionAt(s, i, addr)
    && s.versions[i].life == Unlinked(t)
    && refs == Wrap(s.versions[i].acquires)
    && s.versions[i].acquires <= s.versions[i].releases + owed
  }

  predicate PcOk(s: State, t: nat)
    requires t < |s.pcs|
  {
    match s.pcs[t]
    case Idle => true
    case ExchangeReady(slot, handle, offer) => OfferOk(s, t, slot, offer, handle)
    case CompareReady(slot, expHandle, expected, handle, offer) =>
      OfferOk(s, t, slot, offer, handle) && ExpectedOk(s, expected, expHandle)
    case CompareLoop(slot, expHandle, expected, handle, offer, cur) =>
      OfferOk(s, t, slot, offer, handle) && ExpectedOk(s, expected, expHandle) && cur.lo == expHandle
    case DetachReady(addr, refs, i, owed) => DetachOk(s, t, addr, refs, i, owed)
    case DetachLoop(addr, refs, i, owed, cur, seen, fails) =>
      && DetachOk(s, t, addr, refs, i, owed)
      && cur == Word(Wrap(seen), 0)
      && s.versions[i].acquires + fails <= seen + owed
      && seen <= s.versions[i].releases
    case Finalizing(addr, i) => IsVersionAt(s, i, addr) && s.versions[i].life == Doomed(t)
    case Calling(addr, i) =>
      IsVersionAt(s, i, addr) && (s.versions[i].life == Claimed(t) || s.versions[i].life == Discarded(t))
    case Freeing(addr, i) => IsVersionAt(s, i, addr) && s.versions[i].life == Destroyed(t)
  }

  predicate SlotOk(s: State, x: nat)
    requires x < |s.control| == |s.current|
  {
    match s.current[x]
    case None => s.control[x].lo == HANDLE_NULL
    case Some(i) =>
      && i < |s.versions|
      && s.versions[i].life == Published(x)
      && s.control[x] == Word(Wrap(s.versions[i].acquires), s.versions[i].addr)
  }

  /** No two live versions share an address. */
  predicate Distinct(s: State) {
    forall i, j :: 0 <= i < |s.versions| && 0 <= j < |s.versions| && i != j ==> Apart(s, i, j)
  }

  predicate Apart(s: State, i: nat, j: nat)
    requires i < |s.versions| && j < |s.versions|
  {
    s.versions[i].life.Gone? || s.versions[j].life.Gone? || s.versions[i].addr != s.versions[j].addr
  }

  ghost predicate Core(s: State) {
    && |s.control| == |s.current|
    && !s.aborted
    && Distinct(s)
    && (forall i :: 0 <= i < |s.versions| ==> VersionOk(s, i))
    && (forall t :: 0 <= t < |s.pcs| ==> PcOk(s, t))
    && (forall x :: 0 <= x < |s.control| ==> SlotOk(s, x))
    && (forall k :: k in s.holds ==> IsVersionAt(s, s.holds[k].inc, s.holds[k].addr))
  }

  /** No version that some thread is about to finalize is still held. */
  ghost predicate Unheld(s: State) {
    forall i :: 0 <= i < |s.versions| && s.versions[i].life.Doomed? ==> Outstanding(s, i) == 0
  }

  ghost predicate Inv(s: State) {
    Core(s) && Unheld(s)
  }

  lemma HoldersAdd(holds: map<nat, Hold>, k: nat, h: Hold)
    requires k !in holds
    ensures forall i :: |Holders(holds[k := h], i)| == |Holders(holds, i)| + (if i == h.inc then 1 else 0)
  {
    forall i ensures |Holders(holds[k := h], i)| == |Holders(holds, i)| + (if i == h.inc then 1 else 0) {
      if i == h.inc {
        assert Holders(holds[k := h], i) == Holders(holds, i) + {k};
      } else {
        assert Holders(holds[k := h], i) == Holders(holds, i);
      }
    }
  }

  lemma HoldersRemove(holds: map<nat, Hold>, k: nat)
    requires k in holds
    ensures forall i :: |Holders(holds - {k}, i)| == |Holders(holds, i)| - (if i == holds[k].inc then 1 else 0)
  {
    forall i ensures |Holders(holds - {k}, i)| == |Holders(holds, i)| - (if i == holds[k].inc then 1 else 0) {
      if i == holds[k].inc {
        assert Holders(holds - {k}, i) == Holders(holds, i) - {k};
      } else {
        assert Holders(holds - {k}, i) == Holders(holds, i);
      }
    }
  }

  lemma InitKeeps(slots: nat, threads: nat)
    ensures Inv(Init(slots, threads))
  {
  }

  lemma MakeKeeps(s: State, addr: U32)
    requires Inv(s) && CanMake(s, addr)
    ensures Inv(DoMake(s, addr))
  {
    var s' := DoMake(s, addr);
    var n := |s.versions|;
    assert Holders(s.holds, n) == {};
    forall i | 0 <= i < |s'.versions| ensures VersionOk(s', i) {
      if i < n { assert VersionOk(s, i); }
    }
    forall i, j | 0 <= i < |s'.versions| && 0 <= j < |s'.versions| && i != j ensures Apart(s', i, j) {
      if i < n && j < n { assert Apart(s, i, j); }
    }
    forall t | 0 <= t < |s'.pcs| ensures PcOk(s', t) { assert PcOk(s, t); }
    forall x | 0 <= x < |s'.control| ensures SlotOk(s', x) { assert SlotOk(s, x); }
  }

  predicate DrivenByOther(life: Life, t: nat) {
    match life
    case Private => false
    case Published(_) => false
    case Detached => false
    case Gone => false
    case _ => life.thread != t
  }

  /** A change to a version that a step of thread `t` on slot `x` may make while
      other threads and other slots rely on it. */
  predicate Evolves(v: Version, v': Version, t: nat, x: nat) {
    && v'.addr == v.addr
    && (v.life.Gone? ==> v'.life.Gone?)
    && (DrivenByOther(v.life, t) ==> v'.life == v.life && v'.acquires == v.acquires && v'.releases >= v.releases)
    && (v.life.Published? && v.life.slot != x ==> v'.life == v.life && v'.acquires == v.acquires)
  }

  /** Version `i` after a step of thread `t` on slot `x`: well-formed if it is one of the
      versions `a` and `b` that the step changes, and as before otherwise. */
  ghost predicate VersionStep(s: State, s': State, t: nat, x: nat, a: Option<nat>, b: Option<nat>, i: nat)
    requires i < |s.versions| == |s'.versions|
  {
    match s.versions[i]
    case Version(_, life, _, _, _, _, _) =>
      && Evolves(s.versions[i], s'.versions[i], t, x)
      && if Some(i) == a || Some(i) == b then VersionOk(s', i)
         else s'.versions[i] == s.versions[i] && Outstanding(s', i) == Outstanding(s, i) && VersionOk(s', i)
  }

  predicate KeepsPins(s: State, s': State, u: nat)
    requires u < |s.pcs|
  {
    forall k :: Pins(s.pcs[u], k) && k in s.holds ==> k in s'.holds && s'.holds[k] == s.holds[k]
  }

  /** Everything but the versions is as before outside thread `t` and slot `x`. */
  predicate Local(s: State, s': State, t: nat, x: nat) {
    && |s'.pcs| == |s.pcs| && |s'.control| == |s.control| && |s'.current| == |s.current|
    && |s'.versions| == |s.versions|
    && s'.aborted == s.aborted
    && (forall u :: 0 <= u < |s.pcs| && u != t ==> s'.pcs[u] == s.pcs[u] && KeepsPins(s, s', u))
    && (forall y :: 0 <= y < |s.control| && y != x ==> s'.control[y] == s.control[y])
    && (forall y :: 0 <= y < |s.current| && y != x ==> s'.current[y] == s.current[y])
    && (forall k :: k in s'.holds ==> IsVersionAt(s, s'.holds[k].inc, s'.holds[k].addr))
  }

  lemma PcFrame(s: State, s': State, t: nat, x: nat, u: nat)
    requires Local(s, s', t, x) && u < |s.pcs| && u != t && PcOk(s, u)
    requires forall i :: 0 <= i < |s.versions| ==> Evolves(s.versions[i], s'.versions[i], t, x)
    ensures PcOk(s', u)
  {
    var pc := s.pcs[u];
    assert KeepsPins(s, s', u);
    if (pc.CompareReady? || pc.CompareLoop?) && pc.expected.Some? {
      assert Pins(pc, pc.expected.value);
    }
  }

  lemma SlotFrame(s: State, s': State, t: nat, x: nat, y: nat)
    requires Local(s, s', t, x) && |s.control| == |s.current| && y < |s.control| && y != x && SlotOk(s, y)
    requires forall i :: 0 <= i < |s.versions| ==> Evolves(s.versions[i], s'.versions[i], t, x)
    ensures SlotOk(s', y)
  {
  }

  predicate NotDoomed(s: State, a: Option<nat>) {
    a.Some? && a.value < |s.versions| ==> !s.versions[a.value].life.Doomed?
  }

  /** A step keeps `Core` if it is local and what it touches ends up well-formed. */
  lemma LocalKeeps(s: State, s': State, t: nat, x: nat, a: Option<nat>, b: Option<nat>)
    requires Core(s) && Local(s, s', t, x)
    requires forall i :: 0 <= i < |s.versions| ==> VersionStep(s, s', t, x, a, b, i)
    requires t < |s.pcs| ==> PcOk(s', t)
    requires x < |s.control| ==> SlotOk(s', x)
    ensures Core(s')
    ensures Unheld(s) && NotDoomed(s', a) && NotDoomed(s', b) ==> Unheld(s')
  {
    forall i | 0 <= i < |s.versions| ensures VersionOk(s', i) && Evolves(s.versions[i], s'.versions[i], t, x) {
      assert VersionStep(s, s', t, x, a, b, i);
    }
    forall u | 0 <= u < |s'.pcs| ensures PcOk(s', u) {
      if u != t { assert PcOk(s, u); PcFrame(s, s', t, x, u); }
    }
    forall y | 0 <= y < |s'.control| ensures SlotOk(s', y) {
      if y != x { assert SlotOk(s, y); SlotFrame(s, s', t, x, y); }
    }
    forall i, j | 0 <= i < |s'.versions| && 0 <= j < |s'.versions| && i != j ensures Apart(s', i, j) {
      assert Apart(s, i, j);
    }
    if Unheld(s) {
      forall i | 0 <= i < |s.versions| && Some(i) != a && Some(i) != b && s'.versions[i].life.Doomed?
        ensures Outstanding(s', i) == 0
      {
        assert VersionStep(s, s', t, x, a, b, i);
      }
    }
  }

  lemma AcquireVersion(s: State, x: nat, k: nat, i: nat)
    requires CanAcquire(s, x, k) && |s.control| == |s.current| && SlotOk(s, x)
    requires i < |s.versions| && VersionOk(s, i)
    ensures var s' := DoAcquire(s, x, k);
      && |s'.versions| == |s.versions|
      && VersionStep(s, s', |s.pcs|, x, s.current[x], None, i)
      && (s.current[x] == Some(i) ==> s'.versions[i].life.Published?)
  {
    if s.current[x].Some? {
      HoldersAdd(s.holds, k, Hold(s.control[x].lo, s.current[x].value));
    }
  }

  lemma AcquireKeeps(s: State, x: nat, k: nat)
    requires Inv(s) && CanAcquire(s, x, k)
    ensures Inv(DoAcquire(s, x, k))
  {
    var s' := DoAcquire(s, x, k);
    assert SlotOk(s, x);
    forall i | 0 <= i < |s.versions| ensures VersionStep(s, s', |s.pcs|, x, s.current[x], None, i) {
      assert VersionOk(s, i);
      AcquireVersion(s, x, k, i);
    }
    if s.current[x].Some? {
      assert VersionOk(s, s.current[x].value);
      AcquireVersion(s, x, k, s.current[x].value);
      IncWrapped(s.versions[s.current[x].value].acquires);
    }
    LocalKeeps(s, s', |s.pcs|, x, s.current[x], None);
  }

  /** What a release makes of the counter of the version it releases. */
  lemma ReleasedWord(v: Version, n: nat)
    requires v.releases + n == v.acquires && n > 0
    ensures Wrap(Wrap(v.releases - v.acquires) + 1) == Wrap(v.releases + 1 - v.acquires)
    ensures Wrap(v.releases + 1 - v.acquires) == 0 <==> (n - 1) % MOD32 == 0
    ensures Wrap(Wrap(v.releases) + 1) == Wrap(v.releases + 1)
  {
    IncWrapped(v.releases - v.acquires);
    IncWrapped(v.releases);
    WrapZero(n - 1);
  }

  /** A held version is published, swapped out or detached. */
  lemma HeldLife(s: State, k: nat)
    requires Inv(s) && k in s.holds
    ensures s.holds[k].inc < |s.versions|
    ensures InUse(s.versions[s.holds[k].inc].life)
    ensures Outstanding(s, s.holds[k].inc) > 0
  {
    assert VersionOk(s, s.holds[k].inc);
    assert k in Holders(s.holds, s.holds[k].inc);
  }

  predicate InUse(life: Life) {
    life.Published? || life.Unlinked? || life.Detached?
  }

  predicate Releasing(s: State, t: nat, k: nat, i: nat) {
    CanRelease(s, t, k) && i == s.holds[k].inc && IsVersionAt(s, i, s.holds[k].addr) && InUse(s.versions[i].life)
  }

  lemma ReleaseOther(s: State, t: nat, k: nat, i: nat, j: nat)
    requires Releasing(s, t, k, i) && j < |s.versions| && j != i && VersionOk(s, j) && Apart(s, i, j)
    ensures |DoRelease(s, t, k).versions| == |s.versions|
    ensures VersionStep(s, DoRelease(s, t, k), t, |s.control|, Some(i), None, j)
  {
    HoldersRemove(s.holds, k);
  }

  lemma ReleaseSelf(s: State, t: nat, k: nat, i: nat)
    requires Releasing(s, t, k, i) && VersionOk(s, i) && Outstanding(s, i) > 0
    ensures |DoRelease(s, t, k).versions| == |s.versions|
    ensures VersionStep(s, DoRelease(s, t, k), t, |s.control|, Some(i), None, i)
    ensures PcOk(DoRelease(s, t, k), t)
  {
    HoldersRemove(s.holds, k);
    ReleasedWord(s.versions[i], Outstanding(s, i));
  }

  lemma ReleaseKeeps(s: State, t: nat, k: nat)
    requires Inv(s) && CanRelease(s, t, k)
    ensures Core(DoRelease(s, t, k))
  {
    var s' := DoRelease(s, t, k);
    var i := s.holds[k].inc;
    HeldLife(s, k);
    assert VersionOk(s, i);
    ReleaseSelf(s, t, k, i);
    forall j | 0 <= j < |s.versions| ensures VersionStep(s, s', t, |s.control|, Some(i), None, j) {
      if j != i {
        assert VersionOk(s, j) && Apart(s, i, j);
        ReleaseOther(s, t, k, i, j);
      }
    }
    LocalKeeps(s, s', t, |s.control|, Some(i), None);
  }

  /** A step that only moves thread `t` to another point of the same call. */
  lemma MoveKeeps(s: State, t: nat, pc: Pc)
    requires Inv(s) && AtPc(s, t)
    requires PcOk(Goto(s, t, pc), t)
    requires forall i :: 0 <= i < |s.versions| ==> Backed(Goto(s, t, pc), i)
    ensures Inv(Goto(s, t, pc))
  {
    var s' := Goto(s, t, pc);
    forall i | 0 <= i < |s.versions| ensures VersionStep(s, s', t, |s.control|, None, None, i) {
      assert VersionOk(s, i);
    }
    LocalKeeps(s, s', t, |s.control|, None, None);
  }

  /** The changes to one version `a` and the position of thread `t` that leave memory and holds alone. */
  predicate Drives(s: State, s': State, t: nat, a: Option<nat>) {
    && AtPc(s, t)
    && s' == s.(versions := s'.versions, pcs := s'.pcs)
    && |s'.pcs| == |s.pcs| && |s'.versions| == |s.versions|
    && (forall u :: 0 <= u < |s.pcs| && u != t ==> s'.pcs[u] == s.pcs[u])
    && (forall i :: 0 <= i < |s.versions| && Some(i) != a ==> s'.versions[i] == s.versions[i] && Backed(s', i))
  }

  lemma DrivesKeeps(s: State, s': State, t: nat, a: Option<nat>)
    requires Inv(s) && Drives(s, s', t, a) && PcOk(s', t)
    requires a.Some? && a.value < |s.versions| ==>
      && VersionOk(s', a.value) && Evolves(s.versions[a.value], s'.versions[a.value], t, |s.control|)
      && !s'.versions[a.value].life.Doomed?
    ensures Inv(s')
  {
    forall i | 0 <= i < |s.versions| ensures VersionStep(s, s', t, |s.control|, a, None, i) {
      assert VersionOk(s, i);
    }
    LocalKeeps(s, s', t, |s.control|, a, None);
  }

  /** Entering an exchange or compare-exchange: the offered version changes hands, nothing else moves. */
  lemma BeginKeeps(s: State, t: nat, offer: Option<nat>, pc: Pc)
    requires Inv(s) && IsIdle(s, t)
    requires offer.Some? ==> offer.value < |s.versions| && s.versions[offer.value].life.Private?
    requires (pc.ExchangeReady? || pc.CompareReady?) && pc.offer == offer
    requires PcOk(DoOffer(s, t, offer, pc), t)
    ensures Inv(DoOffer(s, t, offer, pc))
  {
    var s' := DoOffer(s, t, offer, pc);
    forall i | 0 <= i < |s.versions| && Some(i) != offer ensures Backed(s', i) { assert VersionOk(s, i); }
    if offer.Some? { assert VersionOk(s, offer.value); }
    DrivesKeeps(s, s', t, offer);
  }

  /** A compare-exchange returning false gives the offered version back. */
  lemma CompareFailsKeeps(s: State, t: nat, offer: Option<nat>)
    requires Inv(s) && AtPc(s, t) && (s.pcs[t].CompareReady? || s.pcs[t].CompareLoop?) && offer == s.pcs[t].offer
    ensures Inv(CompareFails(s, t, offer))
  {
    var s' := CompareFails(s, t, offer);
    assert PcOk(s, t);
    forall i | 0 <= i < |s.versions| && Some(i) != offer ensures Backed(s', i) { assert VersionOk(s, i); }
    if offer.Some? { assert VersionOk(s, offer.value); }
    DrivesKeeps(s, s', t, offer);
  }

  predicate CanSwap(s: State, t: nat) {
    && AtPc(s, t) && (s.pcs[t].ExchangeReady? || s.pcs[t].CompareLoop?)
    && |s.control| == |s.current| && s.pcs[t].slot < |s.control|
    && PcOk(s, t) && SlotOk(s, s.pcs[t].slot)
  }

  function Swapped(s: State, t: nat): State
    requires CanSwap(s, t)
  {
    SwapIn(s, t, s.pcs[t].slot, s.pcs[t].offer, s.pcs[t].handle, s.control[s.pcs[t].slot])
  }

  lemma SwapVersion(s: State, t: nat, i: nat)
    requires CanSwap(s, t) && i < |s.versions| && VersionOk(s, i)
    ensures var s' := Swapped(s, t); var x := s.pcs[t].slot;
      |s'.versions| == |s.versions| && VersionStep(s, s', t, x, s.pcs[t].offer, s.current[x], i)
  {
    assert Swapped(s, t).holds == s.holds;
  }

  lemma SwapEnds(s: State, t: nat)
    requires CanSwap(s, t)
    requires s.pcs[t].offer.Some? ==> VersionOk(s, s.pcs[t].offer.value)
    requires s.current[s.pcs[t].slot].Some? ==> VersionOk(s, s.current[s.pcs[t].slot].value)
    ensures var s' := Swapped(s, t); var x := s.pcs[t].slot;
      && PcOk(s', t) && SlotOk(s', x)
      && NotDoomed(s', s.pcs[t].offer) && NotDoomed(s', s.current[x])
  {
  }

  lemma SwapLocal(s: State, t: nat)
    requires CanSwap(s, t)
    requires forall k :: k in s.holds ==> IsVersionAt(s, s.holds[k].inc, s.holds[k].addr)
    ensures Local(s, Swapped(s, t), t, s.pcs[t].slot)
  {
  }

  /** The swap: the offered version becomes current and the one it replaces is swapped out. */
  lemma SwapKeeps(s: State, t: nat)
    requires Inv(s) && AtPc(s, t) && (s.pcs[t].ExchangeReady? || s.pcs[t].CompareLoop?)
    ensures CanSwap(s, t) && Inv(Swapped(s, t))
  {
    assert PcOk(s, t) && SlotOk(s, s.pcs[t].slot);
    var s' := Swapped(s, t);
    var x := s.pcs[t].slot;
    SwapLocal(s, t);
    forall i | 0 <= i < |s.versions| ensures VersionStep(s, s', t, x, s.pcs[t].offer, s.current[x], i) {
      assert VersionOk(s, i);
      SwapVersion(s, t, i);
    }
    if s.pcs[t].offer.Some? { assert VersionOk(s, s.pcs[t].offer.value); }
    if s.current[x].Some? { assert VersionOk(s, s.current[x].value); }
    SwapEnds(s, t);
    LocalKeeps(s, s', t, x, s.pcs[t].offer, s.current[x]);
  }

  /** Moving into or around the loop of a compare-exchange. */
  lemma CompareMoveKeeps(s: State, t: nat, pc: Pc)
    requires Inv(s) && AtPc(s, t) && (s.pcs[t].CompareReady? || s.pcs[t].CompareLoop?)
    requires pc.CompareLoop? && pc.offer == s.pcs[t].offer && PcOk(Goto(s, t, pc), t)
    ensures Inv(Goto(s, t, pc))
  {
    forall i | 0 <= i < |s.versions| ensures Backed(Goto(s, t, pc), i) { assert VersionOk(s, i); }
    MoveKeeps(s, t, pc);
  }

  lemma CompareLoadKeeps(s: State, t: nat)
    requires Inv(s) && AtPc(s, t) && s.pcs[t].CompareReady? && InRange(s, s.pcs[t].slot)
    ensures Inv(DoCompareLoad(s, t))
  {
    assert PcOk(s, t);
    if s.control[s.pcs[t].slot].lo != s.pcs[t].expHandle {
      CompareFailsKeeps(s, t, s.pcs[t].offer);
    } else {
      CompareMoveKeeps(s, t, DoCompareLoad(s, t).pcs[t]);
    }
  }

  lemma CompareCasKeeps(s: State, t: nat, spurious: bool)
    requires Inv(s) && AtPc(s, t) && s.pcs[t].CompareLoop? && InRange(s, s.pcs[t].slot)
    ensures Inv(DoCompareCas(s, t, spurious))
  {
    assert PcOk(s, t);
    if s.control[s.pcs[t].slot] == s.pcs[t].cur && !spurious {
      SwapKeeps(s, t);
    } else if s.control[s.pcs[t].slot].lo != s.pcs[t].expHandle {
      CompareFailsKeeps(s, t, s.pcs[t].offer);
    } else {
      CompareMoveKeeps(s, t, DoCompareCas(s, t, spurious).pcs[t]);
    }
  }

  /** Loading or reloading the inner state in `detach_and_adjust`. */
  lemma DetachMoveKeeps(s: State, t: nat, pc: Pc)
    requires Inv(s) && AtPc(s, t) && (s.pcs[t].DetachReady? || s.pcs[t].DetachLoop?)
    requires pc.DetachLoop? && pc.inc == s.pcs[t].inc && PcOk(Goto(s, t, pc), t)
    ensures Inv(Goto(s, t, pc))
  {
    forall i | 0 <= i < |s.versions| ensures Backed(Goto(s, t, pc), i) { assert VersionOk(s, i); }
    MoveKeeps(s, t, pc);
  }

  lemma DetachLoadKeeps(s: State, t: nat)
    requires Inv(s) && AtPc(s, t) && s.pcs[t].DetachReady?
    ensures Inv(DoDetachLoad(s, t))
  {
    assert PcOk(s, t) && VersionOk(s, s.pcs[t].inc);
    DetachMoveKeeps(s, t, DoDetachLoad(s, t).pcs[t]);
  }

  lemma DetachFailKeeps(s: State, t: nat, spurious: bool)
    requires Inv(s) && AtPc(s, t) && s.pcs[t].DetachLoop?
    requires spurious || InnerAt(s, s.pcs[t].addr) != s.pcs[t].cur
    ensures Inv(DoDetachCas(s, t, spurious))
  {
    assert PcOk(s, t) && VersionOk(s, s.pcs[t].inc);
    DetachMoveKeeps(s, t, DoDetachCas(s, t, spurious).pcs[t]);
  }

  /** The compare-and-swap of `detach_and_adjust` is about to succeed. */
  predicate Detaching(s: State, t: nat) {
    && AtPc(s, t) && s.pcs[t].DetachLoop? && PcOk(s, t)
    && InnerAt(s, s.pcs[t].addr) == s.pcs[t].cur
  }

  lemma DetachOther(s: State, t: nat, j: nat)
    requires Detaching(s, t) && j < |s.versions| && j != s.pcs[t].inc && VersionOk(s, j) && Apart(s, s.pcs[t].inc, j)
    ensures |DoDetachCas(s, t, false).versions| == |s.versions|
    ensures VersionStep(s, DoDetachCas(s, t, false), t, |s.control|, Some(s.pcs[t].inc), None, j)
  {
    assert DoDetachCas(s, t, false).holds == s.holds;
  }

  lemma DetachSelf(s: State, t: nat)
    requires Detaching(s, t) && VersionOk(s, s.pcs[t].inc)
    ensures |DoDetachCas(s, t, false).versions| == |s.versions|
    ensures VersionStep(s, DoDetachCas(s, t, false), t, |s.control|, Some(s.pcs[t].inc), None, s.pcs[t].inc)
    ensures PcOk(DoDetachCas(s, t, false), t)
  {
    var i := s.pcs[t].inc;
    var v := s.versions[i];
    assert DoDetachCas(s, t, false).holds == s.holds;
    SubWrapped(v.releases, v.acquires);
    WrapZero(Outstanding(s, i));
  }

  lemma DetachKeeps(s: State, t: nat)
    requires Inv(s) && AtPc(s, t) && s.pcs[t].DetachLoop? && InnerAt(s, s.pcs[t].addr) == s.pcs[t].cur
    ensures Core(DoDetachCas(s, t, false))
  {
    var s' := DoDetachCas(s, t, false);
    var i := s.pcs[t].inc;
    assert PcOk(s, t) && VersionOk(s, i);
    DetachSelf(s, t);
    forall j | 0 <= j < |s.versions| ensures VersionStep(s, s', t, |s.control|, Some(i), None, j) {
      if j != i {
        assert VersionOk(s, j) && Apart(s, i, j);
        DetachOther(s, t, j);
      }
    }
    LocalKeeps(s, s', t, |s.control|, Some(i), None);
  }

  lemma ClaimOther(s: State, t: nat, j: nat)
    requires AtPc(s, t) && s.pcs[t].Finalizing? && PcOk(s, t) && VersionOk(s, s.pcs[t].inc)
    requires j < |s.versions| && j != s.pcs[t].inc && VersionOk(s, j) && Apart(s, s.pcs[t].inc, j)
    ensures |DoClaimFinal(s, t).versions| == |s.versions|
    ensures VersionStep(s, DoClaimFinal(s, t), t, |s.control|, Some(s.pcs[t].inc), None, j)
  {
    assert DoClaimFinal(s, t).holds == s.holds;
  }

  /** Claiming FINALIZED never finds it set. */
  lemma ClaimKeeps(s: State, t: nat)
    requires Inv(s) && AtPc(s, t) && s.pcs[t].Finalizing?
    ensures Inv(DoClaimFinal(s, t))
  {
    var s' := DoClaimFinal(s, t);
    var i := s.pcs[t].inc;
    assert PcOk(s, t) && VersionOk(s, i);
    assert s'.holds == s.holds;
    forall j | 0 <= j < |s.versions| ensures VersionStep(s, s', t, |s.control|, Some(i), None, j) {
      if j != i {
        assert VersionOk(s, j) && Apart(s, i, j);
        ClaimOther(s, t, j);
      }
    }
    LocalKeeps(s, s', t, |s.control|, Some(i), None);
  }

  lemma CallbackKeeps(s: State, t: nat)
    requires Inv(s) && AtPc(s, t) && s.pcs[t].Calling?
    ensures Inv(DoRunCallback(s, t))
  {
    var s' := DoRunCallback(s, t);
    assert PcOk(s, t) && VersionOk(s, s.pcs[t].inc);
    assert s'.holds == s.holds;
    forall i | 0 <= i < |s.versions| && i != s.pcs[t].inc ensures Backed(s', i) { assert VersionOk(s, i); }
    DrivesKeeps(s, s', t, Some(s.pcs[t].inc));
  }

  lemma EnterFreeKeeps(s: State, t: nat)
    requires Inv(s) && AtPc(s, t) && s.pcs[t].Freeing?
    ensures Inv(DoEnterFree(s, t))
  {
    var s' := DoEnterFree(s, t);
    assert PcOk(s, t) && VersionOk(s, s.pcs[t].inc);
    assert s'.holds == s.holds;
    forall i | 0 <= i < |s.versions| && i != s.pcs[t].inc ensures Backed(s', i) { assert VersionOk(s, i); }
    DrivesKeeps(s, s', t, Some(s.pcs[t].inc));
  }

  lemma FreeVersionKeeps(s: State, t: nat, inc: nat)
    requires Inv(s) && CanFree(s, t, inc)
    ensures Inv(DoFreeVersion(s, t, inc))
  {
    var s' := DoFreeVersion(s, t, inc);
    assert VersionOk(s, inc);
    assert s'.holds == s.holds;
    forall i | 0 <= i < |s.versions| && i != inc ensures Backed(s', i) { assert VersionOk(s, i); }
    DrivesKeeps(s, s', t, Some(inc));
  }

  lemma ClobberKeeps(s: State, memory: map<U32, Word>)
    requires Inv(s) && CanClobber(s, memory)
    ensures Inv(s.(inner := memory))
  {
    var s' := s.(inner := memory);
    forall i | 0 <= i < |s.versions| ensures VersionStep(s, s', |s.pcs|, |s.control|, None, None, i) {
      assert VersionOk(s, i);
    }
    LocalKeeps(s, s', |s.pcs|, |s.control|, None, None);
  }

  /** Every step keeps `Core`, whatever the number of holds. */
  lemma StepKeeps(s: State, e: Event)
    requires Inv(s) && Enabled(s, e)
    ensures Core(Apply(s, e))
    ensures !e.Release? && !e.DetachCas? ==> Inv(Apply(s, e))
  {
    match e
    case Make(addr) => MakeKeeps(s, addr);
    case Acquire(slot, hold) => AcquireKeeps(s, slot, hold);
    case Release(t, hold) => ReleaseKeeps(s, t, hold);
    case ExchangeBegin(t, slot, offer, handle) => BeginKeeps(s, t, offer, ExchangeReady(slot, handle, offer));
    case ExchangeSwap(t) => SwapKeeps(s, t);
    case CompareBegin(t, slot, expected, expHandle, offer, handle) =>
      BeginKeeps(s, t, offer, CompareReady(slot, expHandle, expected, handle, offer));
    case CompareLoad(t) => CompareLoadKeeps(s, t);
    case CompareCas(t, spurious) => CompareCasKeeps(s, t, spurious);
    case DetachLoad(t) => DetachLoadKeeps(s, t);
    case DetachCas(t, spurious) =>
      if spurious || InnerAt(s, s.pcs[t].addr) != s.pcs[t].cur {
        DetachFailKeeps(s, t, spurious);
      } else {
        DetachKeeps(s, t);
      }
    case ClaimFinal(t) => ClaimKeeps(s, t);
    case RunCallback(t) => CallbackKeeps(s, t);
    case EnterFree(t) => EnterFreeKeeps(s, t);
    case FreeVersion(t, inc) => FreeVersionKeeps(s, t, inc);
    case Clobber(memory) => ClobberKeeps(s, memory);
  }
}
