/**
 The benchmark's free list (microbench/bench2/lf_pool.hpp): a Treiber stack whose head word
 carries a 4-bit update tag, as a step machine over any number of threads.

 `next` is the first word of every block ever obtained from the system; the holder of a
 block may write anything there.  `list` (bottom first) and `updates` are history: the
 blocks pushed and not yet popped, and the number of successful head updates.  `start` in a
 program counter is the value of `updates` when the head was read.
 */
module TaggedFreeList {
  import opened TaggedWords

  datatype Pc =
    | Idle
    | AllocRead(head: Word, start: nat)
    | AllocTry(head: Word, link: Word, start: nat)
    | FreeLink(block: Word, head: Word)
    | FreeTry(block: Word, head: Word)

  datatype State = State(
    align: bv64,
    head: Word,
    next: map<Word, Word>,
    holders: map<Word, nat>,     // the caller that holds each block that is not on the list
    list: seq<Word>,
    updates: nat,
    pcs: seq<Pc>)

  datatype Event =
    | LoadForAlloc(t: nat)
    | Obtain(t: nat, block: Word)     // the head was null: a block from aligned_alloc
    | Throw(t: nat)                   // the head was null and aligned_alloc failed
    | ReadLink(t: nat)
    | TryPop(t: nat, spurious: bool)
    | LoadForFree(t: nat, mem: Word)
    | StoreLink(t: nat)
    | TryPush(t: nat, spurious: bool)
    | Write(t: nat, block: Word, word: Word)
    | Give(t: nat, block: Word, receiver: nat)

  predicate Holds(s: State, t: nat, block: Word) {
    block in s.holders && s.holders[block] == t && block in s.next
  }

  predicate IsIdle(s: State, t: nat) {
    t < |s.pcs| && s.pcs[t].Idle?
  }

  /** Callers free, write and hand over only blocks they hold; the system returns addresses that
      are multiples of the alignment and not in use. */
  predicate Enabled(s: State, e: Event) {
    e.t < |s.pcs| &&
    match e
    case LoadForAlloc(t) => s.pcs[t].Idle?
    case Obtain(t, block) =>
      && s.pcs[t].AllocRead? && PtrFrom(s.pcs[t].head) == NULL
      && block != NULL && MultipleOf(Value(block), s.align) && block !in s.next
    case Throw(t) => s.pcs[t].AllocRead? && PtrFrom(s.pcs[t].head) == NULL
    case ReadLink(t) => s.pcs[t].AllocRead? && PtrFrom(s.pcs[t].head) != NULL && PtrFrom(s.pcs[t].head) in s.next
    case TryPop(t, _) => s.pcs[t].AllocTry?
    case LoadForFree(t, mem) => s.pcs[t].Idle? && (mem == NULL || Holds(s, t, mem))
    case StoreLink(t) => s.pcs[t].FreeLink? && s.pcs[t].block in s.next
    case TryPush(t, _) => s.pcs[t].FreeTry?
    case Write(t, block, _) => s.pcs[t].Idle? && Holds(s, t, block)
    case Give(t, block, receiver) => s.pcs[t].Idle? && Holds(s, t, block)
  }

  function Goto(s: State, t: nat, pc: Pc): State
    requires t < |s.pcs|
  {
    s.(pcs := s.pcs[t := pc])
  }

  /** The compare-and-swap of thread `t` is about to succeed. */
  predicate Matches(s: State, t: nat, spurious: bool)
    requires t < |s.pcs| && (s.pcs[t].AllocTry? || s.pcs[t].FreeTry?)
  {
    s.head == s.pcs[t].head && !spurious
  }

  function DoTryPop(s: State, t: nat, spurious: bool): State
    requires t < |s.pcs| && s.pcs[t].AllocTry?
  {
    if !Matches(s, t, spurious) then Goto(s, t, AllocRead(s.head, s.updates))
    else
      var AllocTry(head, link, _) := s.pcs[t];
      s.(head := Pack(link, TagFrom(head) + 1),
         holders := s.holders[PtrFrom(head) := t],
         list := if s.list == [] then [] else s.list[..|s.list| - 1],
         updates := s.updates + 1,
         pcs := s.pcs[t := Idle])
  }

  function DoTryPush(s: State, t: nat, spurious: bool): State
    requires t < |s.pcs| && s.pcs[t].FreeTry?
  {
    if !Matches(s, t, spurious) then Goto(s, t, FreeLink(s.pcs[t].block, s.head))
    else
      var FreeTry(block, head) := s.pcs[t];
      s.(head := Pack(block, TagFrom(head) + 1),
         holders := s.holders - {block},
         list := s.list + [block],
         updates := s.updates + 1,
         pcs := s.pcs[t := Idle])
  }

  function Apply(s: State, e: Event): State
    requires Enabled(s, e)
  {
    match e
    case LoadForAlloc(t) => Goto(s, t, AllocRead(s.head, s.updates))
    case Obtain(t, block) =>
      s.(next := s.next[block := NULL], holders := s.holders[block := t], pcs := s.pcs[t := Idle])
    case Throw(t) => Goto(s, t, Idle)
    case ReadLink(t) => Goto(s, t, AllocTry(s.pcs[t].head, s.next[PtrFrom(s.pcs[t].head)], s.pcs[t].start))
    case TryPop(t, spurious) => DoTryPop(s, t, spurious)
    case LoadForFree(t, mem) => if mem == NULL then s else Goto(s, t, FreeLink(mem, s.head))
    case StoreLink(t) =>
      s.(next := s.next[s.pcs[t].block := PtrFrom(s.pcs[t].head)],
         pcs := s.pcs[t := FreeTry(s.pcs[t].block, s.pcs[t].head)])
    case TryPush(t, spurious) => DoTryPush(s, t, spurious)
    case Write(t, block, word) => s.(next := s.next[block := word])
    case Give(t, block, receiver) => s.(holders := s.holders[block := receiver])
  }

  function Init(align: bv64, threads: nat): State {
    State(Normalised(align), NULL, map[], map[], [], 0, seq(threads, _ => Idle))
  }
}
