module AllocatorRuns {
  // What a call of the allocator or the registry comes to in any run, whatever other threads do meanwhile: a
  // registration, a thread exit, and the periodic give-back of the last arena.

  import opened Words
  import opened Handles
  import opened Allocator
  import opened AllocatorInvariant
  import opened AllocatorTheorems
  import opened ArenaBound

  // Registration.

  /** Id `d` was taken in some state from `j` to `k`. */
  predicate SeenUsed(states: seq<State>, j: nat, k: nat, d: nat)
    requires k < |states|
  {
    exists i {:trigger states[i]} :: j <= i <= k && d < |states[i].used| && states[i].used[d]
  }

  predicate AllSeenUsed(states: seq<State>, j: nat, k: nat, n: nat)
    requires k < |states|
  {
    forall d: nat {:trigger SeenUsed(states, j, k, d)} :: d < n ==> SeenUsed(states, j, k, d)
  }

  /** Thread `t`, registering since state `j`, has passed only ids that it found taken. */
  predicate HasPassedOnlyUsed(states: seq<State>, t: nat, j: nat, k: nat)
    requires k < |states|
  {
    var s := states[k];
    && AtPc(s, t)
    && match s.pcs[t]
       case RegScan(i) => s.tls[t].None? && AllSeenUsed(states, j, k, if i < |s.used| then i else |s.used|)
       case RegTry(i) => s.tls[t].None? && AllSeenUsed(states, j, k, i)
       case RegAdopt(i) => s.tls[t].None? && AllSeenUsed(states, j, k, i)
       case Idle => AllSeenUsed(states, j, k, if s.tls[t].Some? then s.tls[t].value else |s.used|)
       case _ => false
  }

  lemma SeenStays(states: seq<State>, j: nat, k: nat, n: nat)
    requires k + 1 < |states| && AllSeenUsed(states, j, k, n)
    ensures AllSeenUsed(states, j, k + 1, n)
  {
    forall d: nat {:trigger SeenUsed(states, j, k + 1, d)} | d < n ensures SeenUsed(states, j, k + 1, d) {
      assert SeenUsed(states, j, k, d);
      var i :| j <= i <= k && d < |states[i].used| && states[i].used[d];
      assert j <= i <= k + 1;
    }
  }

  lemma OneMoreSeen(states: seq<State>, j: nat, k: nat, n: nat)
    requires j <= k < |states| && AllSeenUsed(states, j, k, n) && n < |states[k].used| && states[k].used[n]
    ensures AllSeenUsed(states, j, k, n + 1)
  {
    assert SeenUsed(states, j, k, n);
  }

  /** A step of the registering thread passes an id only if it is taken. */
  lemma RegistrationStep(states: seq<State>, e: Event, t: nat, j: nat, k: nat)
    requires j <= k && k + 1 < |states| && HasPassedOnlyUsed(states, t, j, k) && !states[k].pcs[t].Idle?
    requires e.t == t && Enabled(states[k], e) && states[k + 1] == Apply(states[k], e)
    ensures HasPassedOnlyUsed(states, t, j, k + 1)
  {
    var s := states[k];
    var n := s.pcs[t];
    match n
    case RegScan(i) =>
      if i < |s.used| && s.used[i] {
        OneMoreSeen(states, j, k, i);
        SeenStays(states, j, k, i + 1);
      } else {
        SeenStays(states, j, k, if i < |s.used| then i else |s.used|);
      }
    case RegTry(i) =>
      if s.used[i] {
        OneMoreSeen(states, j, k, i);
        SeenStays(states, j, k, i + 1);
      } else {
        SeenStays(states, j, k, i);
      }
    case RegAdopt(i) => SeenStays(states, j, k, i);
  }

  lemma OthersLeaveRegistration(states: seq<State>, e: Event, t: nat, j: nat, k: nat)
    requires j <= k && k + 1 < |states| && HasPassedOnlyUsed(states, t, j, k) && !states[k].pcs[t].Idle?
    requires e.t != t && Enabled(states[k], e) && states[k + 1] == Apply(states[k], e)
    ensures HasPassedOnlyUsed(states, t, j, k + 1)
  {
    var s := states[k];
    OthersStay(s, e, t);
    assert |states[k + 1].used| == |s.used|;
    var i := if s.pcs[t].RegAdopt? then s.pcs[t].c else s.pcs[t].i;
    SeenStays(states, j, k, if s.pcs[t].RegScan? && i >= |s.used| then |s.used| else i);
  }

  /** Thread `t` is inside a call from just after step `j` to just before state `k`. */
  predicate InCall(states: seq<State>, t: nat, j: nat, k: nat)
    requires k < |states|
  {
    forall i {:trigger states[i]} :: j < i < k ==> AtPc(states[i], t) && !states[i].pcs[t].Idle?
  }

  lemma {:induction false} RegistrationProgress(states: seq<State>, events: seq<Event>, t: nat, j: nat, k: nat)
    requires IsRun(states, events) && j < k < |states| && events[j] == Register(t) && InCall(states, t, j, k)
    ensures HasPassedOnlyUsed(states, t, j, k)
    decreases k
  {
    assert Enabled(states[k - 1], events[k - 1]);
    if k > j + 1 {
      RegistrationProgress(states, events, t, j, k - 1);
      assert !states[k - 1].pcs[t].Idle?;
      if events[k - 1].t == t {
        RegistrationStep(states, events[k - 1], t, j, k - 1);
      } else {
        OthersLeaveRegistration(states, events[k - 1], t, j, k - 1);
      }
    }
  }

  /** A registration, disturbed or not, that begins with step `j` and is over in state `k`.  It fails only if every
      thread id was taken at some time during the call; and if it succeeds, so was every id below the
      one it got, which then belongs to this thread. */
  lemma RegistrationOutcome(states: seq<State>, events: seq<Event>, t: nat, j: nat, k: nat)
    requires IsRun(states, events) && j < k < |states| && events[j] == Register(t)
    requires InCall(states, t, j, k) && IsIdle(states[k], t)
    ensures states[k].tls[t].None? ==> forall d: nat :: d < |states[k].used| ==> SeenUsed(states, j, k, d)
    ensures states[k].tls[t].Some? ==>
      var c := states[k].tls[t].value;
      && UsesContext(states[k], t, c) && HasContext(states[k], c) && c < |states[k].used| && states[k].used[c]
      && forall d: nat :: d < c ==> SeenUsed(states, j, k, d)
  {
    RegistrationProgress(states, events, t, j, k);
    RunInv(states, events, k);
    assert TlsOk(states[k], t);
  }

  // Thread exit.

  /** Context `c` has no active arena, or its last active arena is not fully free. */
  predicate NothingToGiveBack(s: State, c: nat) {
    HasContext(s, c) && (s.contexts[c].value.active > 0 ==> HasLast(s, c) && !IsFull(s, s.arenas[Last(s, c)].top))
  }

  /** Thread `t` exits from context `c`; once it is about to store its id, it has found nothing to give back, in state
      `i`, and the active arenas are those of that state. */
  predicate IsLeaving(states: seq<State>, t: nat, c: nat, j: nat, k: nat)
    requires k < |states|
  {
    var s := states[k];
    && AtPc(s, t) && HasContext(s, c)
    && (s.pcs[t] == ExitCheck(c) || s.pcs[t] == ExitDrop(c) ||
        (s.pcs[t] == ExitStore(c) && HasFoundNothing(states, c, j, k)))
  }

  predicate HasFoundNothing(states: seq<State>, c: nat, j: nat, k: nat)
    requires k < |states|
  {
    exists i {:trigger states[i]} :: j < i <= k && NothingToGiveBack(states[i], c) && HasContext(states[k], c) &&
      states[k].contexts[c].value.active == states[i].contexts[c].value.active
  }

  lemma FoundStays(states: seq<State>, c: nat, j: nat, k: nat)
    requires k + 1 < |states| && HasFoundNothing(states, c, j, k) && HasContext(states[k + 1], c)
    requires states[k + 1].contexts[c].value.active == states[k].contexts[c].value.active
    ensures HasFoundNothing(states, c, j, k + 1)
  {
    var i :| j < i <= k && NothingToGiveBack(states[i], c) && HasContext(states[k], c) &&
      states[k].contexts[c].value.active == states[i].contexts[c].value.active;
    assert j < i <= k + 1;
  }

  lemma OwnExitStep(states: seq<State>, e: Event, t: nat, c: nat, j: nat, k: nat)
    requires j < k && k + 1 < |states| && IsLeaving(states, t, c, j, k)
    requires e.t == t && Enabled(states[k], e) && states[k + 1] == Apply(states[k], e)
    ensures if e.StoreTid? then HasFoundNothing(states, c, j, k) else IsLeaving(states, t, c, j, k + 1)
  {
    var s := states[k];
    if s.pcs[t].ExitCheck? && states[k + 1].pcs[t].ExitStore? {
      assert NothingToGiveBack(s, c) && j < k <= k;
      assert HasFoundNothing(states, c, j, k);
      FoundStays(states, c, j, k);
    }
  }

  lemma OthersExitStep(states: seq<State>, e: Event, t: nat, c: nat, j: nat, k: nat)
    requires j < k && k + 1 < |states| && IsLeaving(states, t, c, j, k) && Inv(states[k])
    requires e.t != t && Enabled(states[k], e) && states[k + 1] == Apply(states[k], e)
    ensures IsLeaving(states, t, c, j, k + 1)
  {
    var s := states[k];
    if UsesContext(s, e.t, c) { SingleOwner(s, t, e.t, c); }
    OnlyOwnerChanges(s, e, c);
    OthersStay(s, e, t);
    if s.pcs[t].ExitStore? { FoundStays(states, c, j, k); }
  }

  lemma {:induction false} ExitProgress(states: seq<State>, events: seq<Event>, t: nat, c: nat, j: nat, k: nat)
    requires IsRun(states, events) && j < k < |states| && events[j] == Exit(t) && Enabled(states[j], events[j])
    requires states[j].tls[t] == Some(c) && forall i :: j < i < k ==> events[i] != StoreTid(t)
    ensures IsLeaving(states, t, c, j, k)
    decreases k
  {
    assert Enabled(states[k - 1], events[k - 1]);
    RunInv(states, events, k - 1);
    if k == j + 1 {
      assert TlsOk(states[j], t);
    } else {
      ExitProgress(states, events, t, c, j, k - 1);
      if events[k - 1].t == t {
        OwnExitStep(states, events[k - 1], t, c, j, k - 1);
      } else {
        OthersExitStep(states, events[k - 1], t, c, j, k - 1);
      }
    }
  }

  /** A thread exit, disturbed or not, gives its id back only after it has found, in some state of the call, no active
      arena or a last active arena with a slot in use, and leaves exactly the arenas that were active then. */
  lemma ExitOutcome(states: seq<State>, events: seq<Event>, t: nat, c: nat, j: nat, k: nat)
    requires IsRun(states, events) && j < k < |events| && events[j] == Exit(t) && Enabled(states[j], events[j])
    requires states[j].tls[t] == Some(c) && events[k] == StoreTid(t)
    requires forall i :: j < i < k ==> events[i] != StoreTid(t)
    ensures HasFoundNothing(states, c, j, k)
  {
    ExitProgress(states, events, t, c, j, k);
    assert Enabled(states[k], events[k]);
    OwnExitStep(states, events[k], t, c, j, k);
  }

  // The periodic give-back.

  /** Context `c` has `n` active arenas, and the last of them is fully free. */
  predicate LastIsFree(s: State, c: nat, n: nat) {
    HasLast(s, c) && s.contexts[c].value.active == n && IsFull(s, s.arenas[Last(s, c)].top)
  }

  /** The step begins an allocation on context `c`. */
  predicate BeginsOn(s: State, e: Event, c: nat) {
    e.AllocBegin? && AtPc(s, e.t) && s.tls[e.t] == Some(c)
  }

  /** The allocations on context `c` that begin with steps `j` to `k`, step `k` not included. */
  function Begun(states: seq<State>, events: seq<Event>, c: nat, j: nat, k: nat): nat
    requires j <= k < |states| && |states| == |events| + 1
    decreases k
  {
    if j == k then 0
    else Begun(states, events, c, j, k - 1) + if BeginsOn(states[k - 1], events[k - 1], c) then 1 else 0
  }

  /** Thread `t` is about to look at the last arena of context `c`, or to give it back. */
  predicate IsChecking(s: State, t: nat, c: nat) {
    AtPc(s, t) && (s.pcs[t] == AllocCheck(c) || s.pcs[t] == AllocDrop(c))
  }

  /** Every step counts the allocations of a context exactly. */
  lemma StepCounts(s: State, e: Event, c: nat)
    requires Inv(s) && Enabled(s, e) && HasContext(s, c)
    ensures HasContext(Apply(s, e), c) && Apply(s, e).size == s.size
    ensures Apply(s, e).contexts[c].value.count == s.contexts[c].value.count + if BeginsOn(s, e, c) then 1 else 0
  {
    if !UsesContext(s, e.t, c) { OnlyOwnerChanges(s, e, c); }
  }

  lemma MultipleChecks(s: State, e: Event, c: nat, n: nat)
    requires Inv(s) && Enabled(s, e) && LastIsFree(s, c, n) && BeginsOn(s, e, c)
    requires (s.contexts[c].value.count + 1) % s.size == 0
    ensures IsChecking(Apply(s, e), e.t, c)
  {
  }

  /** A check that finds the last arena fully free ends with giving it back. */
  lemma CheckingGoesOn(s: State, e: Event, t: nat, c: nat, n: nat)
    requires Inv(s) && Enabled(s, e) && LastIsFree(s, c, n) && LastIsFree(Apply(s, e), c, n) && IsChecking(s, t, c)
    ensures IsChecking(Apply(s, e), t, c)
  {
    if e.t != t { OthersStay(s, e, t); }
  }

  /** No count from `x` to `y`, `x` not included, is a multiple of `size`. */
  predicate NoMultiple(x: nat, y: nat, size: nat)
    requires size > 0
  {
    forall v {:trigger v % size} :: x < v <= y ==> v % size != 0
  }

  lemma NoMultipleYet(x: nat, y: nat, size: nat)
    requires size > 0 && NoMultiple(x, y, size) && (y + 1) % size != 0
    ensures NoMultiple(x, y + 1, size)
  {
    forall v | x < v <= y + 1 ensures v % size != 0 {
      assert v == y + 1 || v <= y;
    }
  }

  lemma MultipleGap(size: nat, d: int)
    ensures d >= 0 ==> size * d >= 0
    ensures d < 0 ==> size * d <= 0 - size
  {
  }

  lemma NextMultiple(q: nat, r: nat, size: nat)
    requires r < size
    ensures (q * size + r + (size - r)) % size == 0
  {
    var v := q * size + size;
    var d := v / size - (q + 1);
    assert v == size * (v / size) + v % size;
    assert v == size * (q + 1);
    assert size * d == size * (v / size) - size * (q + 1);
    assert size * d == -(v % size);
    MultipleGap(size, d);
  }

  /** Among `size` successive counts there is a multiple. */
  lemma FewWithoutMultiple(x: nat, y: nat, size: nat)
    requires size > 0 && NoMultiple(x, y, size)
    ensures y < x + size
  {
    var q, r := x / size, x % size;
    assert x == q * size + r;
    NextMultiple(q, r, size);
    assert (x + (size - r)) % size == 0;
  }

  ghost predicate IsCheckedInTime(s: State, c: nat, x: nat)
    requires HasContext(s, c) && s.size > 0
  {
    (exists t: nat :: IsChecking(s, t, c)) || NoMultiple(x, s.contexts[c].value.count, s.size)
  }

  lemma FreeArenaStep(s: State, e: Event, c: nat, n: nat, x: nat)
    requires Inv(s) && Enabled(s, e) && LastIsFree(s, c, n) && LastIsFree(Apply(s, e), c, n)
    requires IsCheckedInTime(s, c, x)
    ensures HasContext(Apply(s, e), c) && Apply(s, e).size == s.size && IsCheckedInTime(Apply(s, e), c, x)
    ensures Apply(s, e).contexts[c].value.count == s.contexts[c].value.count + if BeginsOn(s, e, c) then 1 else 0
  {
    StepCounts(s, e, c);
    var count := s.contexts[c].value.count;
    if t: nat :| IsChecking(s, t, c) {
      CheckingGoesOn(s, e, t, c, n);
    } else if BeginsOn(s, e, c) {
      if (count + 1) % s.size == 0 {
        MultipleChecks(s, e, c, n);
      } else {
        NoMultipleYet(x, count, s.size);
      }
    }
  }

  /** While the last arena stays fully free and active, either a check is under way or no count since state `j` has been
      a multiple of the arena size. */
  lemma {:induction false} FreeArenaChecked(states: seq<State>, events: seq<Event>, c: nat, n: nat, j: nat, k: nat)
    requires IsRun(states, events) && j <= k < |states|
    requires forall i :: j <= i <= k ==> LastIsFree(states[i], c, n)
    ensures HasContext(states[j], c) && HasContext(states[k], c) && states[k].size == states[j].size > 0
    ensures states[k].contexts[c].value.count == states[j].contexts[c].value.count + Begun(states, events, c, j, k)
    ensures IsCheckedInTime(states[k], c, states[j].contexts[c].value.count)
    decreases k
  {
    assert LastIsFree(states[k], c, n) && LastIsFree(states[j], c, n);
    RunInv(states, events, j);
    if j < k {
      var s, e := states[k - 1], events[k - 1];
      FreeArenaChecked(states, events, c, n, j, k - 1);
      assert LastIsFree(s, c, n) && Enabled(s, e);
      RunInv(states, events, k - 1);
      FreeArenaStep(s, e, c, n, states[j].contexts[c].value.count);
    }
  }

  /** Over any stretch of a run in which as many allocations begin on a context as an arena has slots, a last active
      arena that is fully free all along does not stay: by the time no allocation on the context is under way it has
      been given back. */
  lemma FreeArenaGivenBack(states: seq<State>, events: seq<Event>, c: nat, n: nat, j: nat, k: nat)
    requires IsRun(states, events) && j <= k < |states|
    requires Begun(states, events, c, j, k) >= states[j].size && forall t: nat :: !AllocatesOn(states[k], t, c)
    ensures exists i {:trigger states[i]} :: j <= i <= k && !LastIsFree(states[i], c, n)
  {
    if forall i {:trigger states[i]} :: j <= i <= k ==> LastIsFree(states[i], c, n) {
      FreeArenaChecked(states, events, c, n, j, k);
      if t: nat :| IsChecking(states[k], t, c) { assert AllocatesOn(states[k], t, c); }
      FewWithoutMultiple(states[j].contexts[c].value.count, states[k].contexts[c].value.count, states[j].size);
    }
  }
}
