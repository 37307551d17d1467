module ProtocolOverflow {
  // The run that the condition on the number of holds is there to exclude: a version that is
  // held a positive multiple of 2^32 times when it is detached is destroyed in its holders' hands.

  import opened Words
  import opened Protocol
  import opened ProtocolTheorems

  predicate CanRun(s: State, events: seq<Event>)
    decreases |events|
  {
    events != [] ==> Enabled(s, events[0]) && CanRun(Apply(s, events[0]), events[1..])
  }

  function After(s: State, events: seq<Event>): State
    requires CanRun(s, events)
    decreases |events|
  {
    if events == [] then s else After(Apply(s, events[0]), events[1..])
  }

  /** Events `events` lead from `s` to `r`. */
  predicate Leads(s: State, events: seq<Event>, r: State) {
    CanRun(s, events) && After(s, events) == r
  }

  lemma {:induction false} LeadsOn(s: State, events: seq<Event>, m: State, e: Event)
    requires Leads(s, events, m) && Enabled(m, e)
    ensures Leads(s, events + [e], Apply(m, e))
    decreases |events|
  {
    if events == [] {
      assert events + [e] == [e] && [e][1..] == [];
      assert CanRun(Apply(m, e), []);
    } else {
      assert (events + [e])[0] == events[0] && (events + [e])[1..] == events[1..] + [e];
      LeadsOn(Apply(s, events[0]), events[1..], m, e);
    }
  }

  /** Holds 0 to `n - 1` of version 0. */
  function ManyHolds(addr: U32, n: nat): (holds: map<nat, Hold>)
    ensures forall k: nat :: k in holds <==> k < n
  {
    if n == 0 then map[] else ManyHolds(addr, n - 1)[n - 1 := Hold(addr, 0)]
  }

  /** One version, current in the only slot, held `n` times. */
  function HeldTimes(addr: U32, n: nat): State {
    State([Word(Wrap(n), addr)], map[addr := Word(0, 0)], [Idle], false,
          [Version(addr, Published(0), true, n, 0, 0, 0)], [Some(0)], ManyHolds(addr, n))
  }

  lemma Publish(addr: U32) returns (events: seq<Event>)
    requires addr != HANDLE_NULL
    ensures Leads(Init(1, 1), events, HeldTimes(addr, 0))
  {
    var s := Init(1, 1);
    LeadsOn(s, [], s, Make(addr));
    var s1 := Apply(s, Make(addr));
    events := [] + [Make(addr)];
    var e1 := ExchangeBegin(0, 0, Some(0), addr);
    LeadsOn(s, events, s1, e1);
    var s2 := Apply(s1, e1);
    events := events + [e1];
    LeadsOn(s, events, s2, ExchangeSwap(0));
    events := events + [ExchangeSwap(0)];
    PublishedState(addr, s1, s2);
  }

  lemma PublishedState(addr: U32, s1: State, s2: State)
    requires addr != HANDLE_NULL && s1 == DoMake(Init(1, 1), addr)
    requires s2 == DoOffer(s1, 0, Some(0), ExchangeReady(0, addr, Some(0)))
    ensures Enabled(s2, ExchangeSwap(0)) && Apply(s2, ExchangeSwap(0)) == HeldTimes(addr, 0)
  {
    assert s1.versions == [Version(addr, Private, false, 0, 0, 0, 0)];
    var r := Apply(s2, ExchangeSwap(0));
    assert r.versions == HeldTimes(addr, 0).versions;
    assert r.holds == HeldTimes(addr, 0).holds;
    assert r.control == [Word(0, addr)] && r.current == [Some(0)] && r.pcs == [Idle];
    assert r.inner == map[addr := Word(0, 0)];
    assert Wrap(0) == 0;
  }

  lemma OneMoreHold(addr: U32, n: nat)
    requires addr != HANDLE_NULL
    ensures Enabled(HeldTimes(addr, n), Acquire(0, n))
    ensures Apply(HeldTimes(addr, n), Acquire(0, n)) == HeldTimes(addr, n + 1)
  {
    IncWrapped(n);
    var r := Apply(HeldTimes(addr, n), Acquire(0, n));
    assert r.holds == HeldTimes(addr, n + 1).holds;
  }

  lemma {:induction false} HoldMany(addr: U32, n: nat) returns (events: seq<Event>)
    requires addr != HANDLE_NULL
    ensures Leads(Init(1, 1), events, HeldTimes(addr, n))
  {
    if n == 0 {
      events := Publish(addr);
    } else {
      events := HoldMany(addr, n - 1);
      OneMoreHold(addr, n - 1);
      LeadsOn(Init(1, 1), events, HeldTimes(addr, n - 1), Acquire(0, n - 1));
      events := events + [Acquire(0, n - 1)];
    }
  }

  /** The version after `n` holds, at stage `life` of its end, with inner state `word` and the writer at `pc`. */
  function Ending(addr: U32, n: nat, life: Life, sights: nat, calls: nat, word: Word, pc: Pc): State {
    State([Word(0, HANDLE_NULL)], map[addr := word], [pc], false,
          [Version(addr, life, true, n, 0, sights, calls)], [None], ManyHolds(addr, n))
  }

  lemma {:induction false} HoldersOfAll(addr: U32, n: nat)
    ensures |Holders(ManyHolds(addr, n), 0)| == n
  {
    if n > 0 {
      HoldersOfAll(addr, n - 1);
      assert Holders(ManyHolds(addr, n), 0) == Holders(ManyHolds(addr, n - 1), 0) + {n - 1};
    }
  }

  /** The writer's steps from the swap to the callback, when the holders are a multiple of 2^32. */
  lemma WriterEnds(addr: U32, n: nat)
    requires addr != HANDLE_NULL && n % MOD32 == 0
    ensures
      var zero := Word(0, 0);
      var gone := Word(0, DETACHED);
      var s1 := DoOffer(HeldTimes(addr, n), 0, None, ExchangeReady(0, HANDLE_NULL, None));
      var s2 := Ending(addr, n, Unlinked(0), 0, 0, zero, DetachReady(addr, 0, 0, n));
      var s3 := Ending(addr, n, Unlinked(0), 0, 0, zero, DetachLoop(addr, 0, 0, n, zero, 0, 0));
      var s4 := Ending(addr, n, Doomed(0), 1, 0, gone, Finalizing(addr, 0));
      && Enabled(s1, ExchangeSwap(0)) && Apply(s1, ExchangeSwap(0)) == s2
      && Apply(s2, DetachLoad(0)) == s3 && Apply(s3, DetachCas(0, false)) == s4
  {
    HoldersOfAll(addr, n);
    var s1 := DoOffer(HeldTimes(addr, n), 0, None, ExchangeReady(0, HANDLE_NULL, None));
    var r := Apply(s1, ExchangeSwap(0));
    assert r.versions == [Version(addr, Unlinked(0), true, n, 0, 0, 0)];
  }

  lemma WriterDestroys(addr: U32, n: nat)
    ensures
      var gone := Word(0, DETACHED);
      var claimed := Word(0, DETACHED + FINALIZED);
      var s4 := Ending(addr, n, Doomed(0), 1, 0, gone, Finalizing(addr, 0));
      var s5 := Ending(addr, n, Claimed(0), 1, 0, claimed, Calling(addr, 0));
      var s6 := Ending(addr, n, Destroyed(0), 1, 1, claimed, Freeing(addr, 0));
      Apply(s4, ClaimFinal(0)) == s5 && Apply(s5, RunCallback(0)) == s6
  {
  }

  /** For every positive multiple of 2^32 there is a run in which a version is destroyed while that
      many of its holds are outstanding, so wrap-around can cause premature reclamation. */
  lemma DestroyedWhileHeld(addr: U32, n: nat) returns (events: seq<Event>, s: State)
    requires addr != HANDLE_NULL && n > 0 && n % MOD32 == 0
    ensures Leads(Init(1, 1), events, s)
    ensures |s.versions| == 1 && s.versions[0].callbacks == 1 && Outstanding(s, 0) == n && !NothingPremature(s)
  {
    events := HoldMany(addr, n);
    var begin := ExchangeBegin(0, 0, None, HANDLE_NULL);
    s := HeldTimes(addr, n);
    events, s := Extend(events, s, begin);
    WriterEnds(addr, n);
    events, s := Extend(events, s, ExchangeSwap(0));
    events, s := Extend(events, s, DetachLoad(0));
    events, s := Extend(events, s, DetachCas(0, false));
    WriterDestroys(addr, n);
    events, s := Extend(events, s, ClaimFinal(0));
    events, s := Extend(events, s, RunCallback(0));
    HoldersOfAll(addr, n);
    var k :| k in Holders(s.holds, 0);
    assert StillNeeded(s, 0);
  }

  lemma Extend(events: seq<Event>, s: State, e: Event) returns (longer: seq<Event>, r: State)
    requires Leads(Init(1, 1), events, s) && Enabled(s, e)
    ensures Leads(Init(1, 1), longer, r) && r == Apply(s, e)
  {
    longer, r := events + [e], Apply(s, e);
    LeadsOn(Init(1, 1), events, s, e);
  }
}
