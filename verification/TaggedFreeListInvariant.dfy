/**
 The invariant of the tagged free list, and exactly which steps keep it.
 */
module TaggedFreeListInvariant {
  import opened TaggedWords
  import opened TaggedFreeList

  function Top(list: seq<Word>): Word {
    if list == [] then NULL else list[|list| - 1]
  }

  /** The link stored in the `p`-th block from the bottom. */
  function Below(list: seq<Word>, p: nat): Word
    requires p < |list|
  {
    if p == 0 then NULL else list[p - 1]
  }

  ghost predicate Distinct(list: seq<Word>) {
    forall p, q :: 0 <= p < q < |list| ==> list[p] != list[q]
  }

  predicate BlockOk(s: State, b: Word) {
    b in s.next && b != NULL && Aligned(b)
  }

  predicate LinkOk(s: State, p: nat)
    requires p < |s.list|
  {
    BlockOk(s, s.list[p]) && s.list[p] !in s.holders && s.next[s.list[p]] == Below(s.list, p)
  }

  /** The list that the head and the links in memory spell out is the history list. */
  ghost predicate ListOk(s: State) {
    PtrFrom(s.head) == Top(s.list) && Distinct(s.list) &&
    (forall p {:trigger LinkOk(s, p)} :: 0 <= p < |s.list| ==> LinkOk(s, p))
  }

  /** Every block is on the list or held. */
  ghost predicate Covered(s: State) {
    (forall b :: b in s.holders ==> BlockOk(s, b)) &&
    (forall b :: b in s.next ==> b in s.holders || b in s.list)
  }

  /** The list in memory is the history list, and each block is on it or held. */
  ghost predicate Intact(s: State) {
    ListOk(s) && Covered(s)
  }

  predicate SeenOk(s: State, head: Word, start: nat) {
    start <= s.updates &&
    (PtrFrom(head) != NULL ==> BlockOk(s, PtrFrom(head))) &&
    (start == s.updates ==> head == s.head)
  }

  predicate PcOk(s: State, t: nat)
    requires t < |s.pcs|
  {
    match s.pcs[t]
    case Idle => true
    case AllocRead(head, start) => SeenOk(s, head, start)
    case AllocTry(head, link, start) =>
      SeenOk(s, head, start) && PtrFrom(head) in s.next &&
      PtrFrom(head) != NULL && (start == s.updates ==> link == s.next[PtrFrom(head)])
    case FreeLink(block, _) => Holds(s, t, block)
    case FreeTry(block, head) => Holds(s, t, block) && s.next[block] == PtrFrom(head)
  }

  ghost predicate Inv(s: State) {
    PowerOfTwo(s.align) && s.align >= 16 && Intact(s) &&
    (forall t {:trigger PcOk(s, t)} :: 0 <= t < |s.pcs| ==> PcOk(s, t))
  }

  /** A pop that makes another block the head than the link stored in the top block names. */
  predicate StalePop(s: State, e: Event)
    requires Enabled(s, e)
  {
    e.TryPop? && Matches(s, e.t, e.spurious) && PtrFrom(s.head) in s.next && !LinkCurrent(s, s.pcs[e.t].link)
  }

  predicate LinkCurrent(s: State, link: Word)
    requires PtrFrom(s.head) in s.next
  {
    PtrFrom(link) == PtrFrom(s.next[PtrFrom(s.head)])
  }

  lemma InitInv(align: bv64, threads: nat)
    ensures Inv(Init(align, threads))
  {
  }

  // The steps that leave the list alone.

  /** A thread that reads the head sees the current one. */
  lemma ReadSeen(s: State)
    requires Inv(s)
    ensures SeenOk(s, s.head, s.updates)
  {
    if s.list != [] {
      assert LinkOk(s, |s.list| - 1);
    }
  }

  lemma GotoKeeps(s: State, t: nat, pc: Pc)
    requires Inv(s) && t < |s.pcs| && PcOk(Goto(s, t, pc), t)
    ensures Inv(Goto(s, t, pc))
  {
    var r := Goto(s, t, pc);
    assert forall p :: 0 <= p < |s.list| ==> LinkOk(s, p) ==> LinkOk(r, p);
    assert forall u :: 0 <= u < |s.pcs| && u != t ==> PcOk(s, u) ==> PcOk(r, u);
  }

  /** Writing into a block that is not on the list disturbs no link and no reader's link that counts. */
  lemma WriteKeeps(s: State, t: nat, block: Word, word: Word, pc: Pc)
    requires Inv(s) && t < |s.pcs| && Holds(s, t, block)
    requires pc.Idle? || (pc.FreeTry? && pc.block == block && word == PtrFrom(pc.head))
    ensures Inv(s.(next := s.next[block := word], pcs := s.pcs[t := pc]))
  {
    var r := s.(next := s.next[block := word], pcs := s.pcs[t := pc]);
    assert BlockOk(s, block);
    forall p | 0 <= p < |s.list| ensures LinkOk(r, p) {
      assert LinkOk(s, p);
    }
    forall u | 0 <= u < |s.pcs| ensures PcOk(r, u) {
      assert PcOk(s, u);
      if u != t && s.pcs[u].AllocTry? && s.pcs[u].start == s.updates {
        assert LinkOk(s, |s.list| - 1);
      }
    }
  }

  lemma ObtainKeeps(s: State, t: nat, block: Word)
    requires Inv(s) && Enabled(s, Obtain(t, block))
    ensures Inv(Apply(s, Obtain(t, block)))
  {
    var r := Apply(s, Obtain(t, block));
    AlignmentLeavesTagBits(block, s.align);
    forall p | 0 <= p < |s.list| ensures LinkOk(r, p) {
      assert LinkOk(s, p);
    }
    forall u | 0 <= u < |s.pcs| ensures PcOk(r, u) {
      assert PcOk(s, u);
    }
  }

  lemma GiveKeeps(s: State, t: nat, block: Word, receiver: nat)
    requires Inv(s) && Enabled(s, Give(t, block, receiver))
    ensures Inv(Apply(s, Give(t, block, receiver)))
  {
    var r := Apply(s, Give(t, block, receiver));
    forall p | 0 <= p < |s.list| ensures LinkOk(r, p) {
      assert LinkOk(s, p);
    }
    forall u | 0 <= u < |s.pcs| ensures PcOk(r, u) {
      assert PcOk(s, u);
    }
  }

  // The head updates.

  /** The address part of a new head is that of the word packed into it. */
  lemma NewHead(head: Word, up: Word)
    ensures PtrFrom(Pack(up, TagFrom(head) + 1)) == PtrFrom(up)
    ensures Aligned(up) ==> PtrFrom(up) == up && TagFrom(Pack(up, TagFrom(head) + 1)) == TagFrom(head) + 1
  {
  }

  /** A head update leaves the other threads' program counters right. */
  lemma OthersKeep(s: State, r: State, t: nat, u: nat)
    requires t < |s.pcs| == |r.pcs| && u < |s.pcs| && u != t && PcOk(s, u) && r.pcs[u] == s.pcs[u]
    requires r.next == s.next && r.updates == s.updates + 1
    requires forall b :: b in s.holders && s.holders[b] == u ==> b in r.holders && r.holders[b] == u
    ensures PcOk(r, u)
  {
  }

  lemma PushLink(s: State, r: State, block: Word, p: nat)
    requires p < |s.list| && LinkOk(s, p) && block in s.holders
    requires r.next == s.next && r.holders == s.holders - {block} && r.list == s.list + [block]
    ensures LinkOk(r, p) && s.list[p] != block
  {
  }

  lemma DistinctAppend(list: seq<Word>, block: Word)
    requires Distinct(list) && block !in list
    ensures Distinct(list + [block])
  {
  }

  lemma PushList(s: State, r: State, block: Word)
    requires ListOk(s) && BlockOk(s, block) && block in s.holders && s.next[block] == Top(s.list)
    requires r.next == s.next && r.holders == s.holders - {block} && r.list == s.list + [block]
    requires PtrFrom(r.head) == block
    ensures ListOk(r)
  {
    var n := |s.list|;
    forall p | 0 <= p < |s.list| ensures LinkOk(r, p) && s.list[p] != block {
      PushLink(s, r, block, p);
    }
    DistinctAppend(s.list, block);
    assert r.list[n] == block && Below(r.list, n) == Top(s.list);
    assert LinkOk(r, n);
  }

  /** A push is right however many updates it missed: equality with the current head is all it needs. */
  lemma PushKeeps(s: State, t: nat)
    requires Inv(s) && t < |s.pcs| && s.pcs[t].FreeTry? && s.head == s.pcs[t].head
    ensures Inv(DoTryPush(s, t, false))
  {
    var FreeTry(block, head) := s.pcs[t];
    var r := DoTryPush(s, t, false);
    assert PcOk(s, t);
    assert BlockOk(s, block);
    NewHead(head, block);
    PushList(s, r, block);
    forall u | 0 <= u < |s.pcs| ensures PcOk(r, u) {
      if u != t {
        OthersKeep(s, r, t, u);
      }
    }
    assert r.list[|s.list|] == block;
    assert forall b :: b in s.list ==> b in r.list;
  }

  /** The top block and its link. */
  lemma TopBlock(s: State)
    requires Inv(s) && PtrFrom(s.head) != NULL
    ensures s.list != [] && PtrFrom(s.head) == s.list[|s.list| - 1]
    ensures BlockOk(s, PtrFrom(s.head)) && PtrFrom(s.head) !in s.holders
    ensures s.next[PtrFrom(s.head)] == Below(s.list, |s.list| - 1) == Top(s.list[..|s.list| - 1])
    ensures Aligned(s.next[PtrFrom(s.head)])
  {
    assert LinkOk(s, |s.list| - 1);
    if |s.list| > 1 {
      assert LinkOk(s, |s.list| - 2);
    }
  }

  lemma PopList(s: State, r: State, t: nat)
    requires ListOk(s) && s.list != [] && r.next == s.next && r.list == s.list[..|s.list| - 1]
    requires r.holders == s.holders[PtrFrom(s.head) := t] && PtrFrom(r.head) == Top(r.list)
    ensures ListOk(r)
  {
    forall p | 0 <= p < |r.list| ensures LinkOk(r, p) {
      assert LinkOk(s, p);
    }
  }

  lemma PopKeeps(s: State, t: nat)
    requires Inv(s) && t < |s.pcs| && s.pcs[t].AllocTry? && s.head == s.pcs[t].head
    requires PtrFrom(s.head) in s.next && LinkCurrent(s, s.pcs[t].link)
    ensures Inv(DoTryPop(s, t, false))
  {
    var r := DoTryPop(s, t, false);
    assert PcOk(s, t);
    TopBlock(s);
    NewHead(s.head, s.pcs[t].link);
    NewHead(s.head, s.next[PtrFrom(s.head)]);
    PopList(s, r, t);
    forall u | 0 <= u < |s.pcs| ensures PcOk(r, u) {
      if u != t {
        OthersKeep(s, r, t, u);
      }
    }
  }

  lemma TryPopKeeps(s: State, t: nat, spurious: bool)
    requires Inv(s) && Enabled(s, TryPop(t, spurious)) && !StalePop(s, TryPop(t, spurious))
    ensures Inv(DoTryPop(s, t, spurious))
  {
    assert PcOk(s, t);
    if Matches(s, t, spurious) {
      PopKeeps(s, t);
    } else {
      ReadSeen(s);
      GotoKeeps(s, t, AllocRead(s.head, s.updates));
    }
  }

  lemma TryPushKeeps(s: State, t: nat, spurious: bool)
    requires Inv(s) && Enabled(s, TryPush(t, spurious))
    ensures Inv(DoTryPush(s, t, spurious))
  {
    if Matches(s, t, spurious) {
      PushKeeps(s, t);
    } else {
      assert PcOk(s, t);
      GotoKeeps(s, t, FreeLink(s.pcs[t].block, s.head));
    }
  }

  lemma LoadKeeps(s: State, t: nat)
    requires Inv(s) && Enabled(s, LoadForAlloc(t))
    ensures Inv(Apply(s, LoadForAlloc(t)))
  {
    ReadSeen(s);
    GotoKeeps(s, t, AllocRead(s.head, s.updates));
  }

  lemma ReadLinkKeeps(s: State, t: nat)
    requires Inv(s) && Enabled(s, ReadLink(t))
    ensures Inv(Apply(s, ReadLink(t)))
  {
    assert PcOk(s, t);
    GotoKeeps(s, t, AllocTry(s.pcs[t].head, s.next[PtrFrom(s.pcs[t].head)], s.pcs[t].start));
  }

  lemma StoreLinkKeeps(s: State, t: nat)
    requires Inv(s) && Enabled(s, StoreLink(t))
    ensures Inv(Apply(s, StoreLink(t)))
  {
    assert PcOk(s, t);
    WriteKeeps(s, t, s.pcs[t].block, PtrFrom(s.pcs[t].head), FreeTry(s.pcs[t].block, s.pcs[t].head));
  }

  lemma LoadForFreeKeeps(s: State, t: nat, mem: Word)
    requires Inv(s) && Enabled(s, LoadForFree(t, mem))
    ensures Inv(Apply(s, LoadForFree(t, mem)))
  {
    if mem != NULL {
      GotoKeeps(s, t, FreeLink(mem, s.head));
    }
  }

  lemma HolderWriteKeeps(s: State, t: nat, block: Word, word: Word)
    requires Inv(s) && Enabled(s, Write(t, block, word))
    ensures Inv(Apply(s, Write(t, block, word)))
  {
    WriteKeeps(s, t, block, word, Idle);
    assert s.pcs[t := Idle] == s.pcs;
  }

  predicate IsAlloc(e: Event) {
    e.LoadForAlloc? || e.Obtain? || e.Throw? || e.ReadLink? || e.TryPop?
  }

  lemma AllocStepKeeps(s: State, e: Event)
    requires Inv(s) && Enabled(s, e) && !StalePop(s, e) && IsAlloc(e)
    ensures Inv(Apply(s, e))
  {
    match e
    case LoadForAlloc(t) => LoadKeeps(s, t);
    case Obtain(t, block) => ObtainKeeps(s, t, block);
    case Throw(t) => GotoKeeps(s, t, Idle);
    case ReadLink(t) => ReadLinkKeeps(s, t);
    case TryPop(t, spurious) => TryPopKeeps(s, t, spurious);
  }

  lemma StepKeeps(s: State, e: Event)
    requires Inv(s) && Enabled(s, e) && !StalePop(s, e)
    ensures Inv(Apply(s, e))
  {
    match e
    case LoadForFree(t, mem) => LoadForFreeKeeps(s, t, mem);
    case StoreLink(t) => StoreLinkKeeps(s, t);
    case TryPush(t, spurious) => TryPushKeeps(s, t, spurious);
    case Write(t, block, word) => HolderWriteKeeps(s, t, block, word);
    case Give(t, block, receiver) => GiveKeeps(s, t, block, receiver);
    case _ => AllocStepKeeps(s, e);
  }

  // The tags.

  /** The tag of a head that was read is that of the number of updates then. */
  predicate TagSeen(pc: Pc) {
    pc.AllocRead? || pc.AllocTry? ==> TagFrom(pc.head) == NthTag(pc.start)
  }

  /** Tags count updates, in the head and in every head that a popping thread has read. */
  ghost predicate TagsOk(s: State) {
    TagFrom(s.head) == NthTag(s.updates) && forall t :: 0 <= t < |s.pcs| ==> TagSeen(s.pcs[t])
  }

  /** If the step pops, its link is the one stored in the top block, to the last bit. */
  predicate PopsPresentLink(s: State, e: Event)
    requires Enabled(s, e)
  {
    e.TryPop? && Matches(s, e.t, e.spurious) ==> PtrFrom(s.head) in s.next && s.pcs[e.t].link == s.next[PtrFrom(s.head)]
  }

  lemma TagsKept(s: State, e: Event)
    requires Inv(s) && TagsOk(s) && Enabled(s, e) && PopsPresentLink(s, e)
    ensures TagsOk(Apply(s, e))
  {
    assert PcOk(s, e.t);
    if e.TryPop? && Matches(s, e.t, e.spurious) {
      TopBlock(s);
      NewHead(s.head, s.pcs[e.t].link);
    } else if e.TryPush? && Matches(s, e.t, e.spurious) {
      assert BlockOk(s, s.pcs[e.t].block);
      NewHead(s.head, s.pcs[e.t].block);
    }
  }

  /** Intact, and with tags that count updates. */
  ghost predicate Good(s: State) {
    Inv(s) && TagsOk(s)
  }

  lemma GoodKeeps(s: State, e: Event)
    requires Good(s) && Enabled(s, e) && PopsPresentLink(s, e)
    ensures Good(Apply(s, e))
  {
    TagsKept(s, e);
    StepKeeps(s, e);
  }

  lemma InitGood(align: bv64, threads: nat)
    ensures Good(Init(align, threads))
  {
    InitInv(align, threads);
  }
}
