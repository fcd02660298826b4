/**
  The superblock / thread-cache protocol of one size class as a state machine over
  interleaved steps of any number of threads.  A step is one atomic access to shared memory
  together with the thread-local work around it.  Caches use raw links and the allocator
  runs without APF tuning, the mode in which `do_free` flushes.
  */
module Protocol {
  import opened Chains

  /** `init_size_class` asserts that a superblock holds at least one block. */
  type Pos = n: nat | n > 0 witness 1

  datatype SuperBlockState = FULL | PARTIAL | EMPTY

  datatype Anchor = Anchor(state: SuperBlockState, avail: nat, count: nat)

  /** Where a thread is inside `flush_cache` or `malloc_from_partial`. */
  datatype Pc =
    | Idle
    | Flushing(d: nat, first: Block, tail: Block, n: nat)
    | Linked(d: nat, first: Block, tail: Block, n: nat, seen: Anchor)
    | Pushing(d: nat)
    | Unmapping(d: nat, life: nat)
    | Popped(d: nat)
    | Reserving(d: nat, seen: Anchor)

  /** A thread with its cache bin: the blocks met by `num` links from `head`. */
  datatype Thread = Thread(pc: Pc, head: Ptr, num: nat)

  /** A descriptor: `life` counts the superblocks it has described, `mapped` says that its
      `super_block` field holds a mapped, registered segment, `free` that it is retired. */
  datatype Desc = Desc(anchor: Anchor, life: nat, mapped: bool, free: bool)

  datatype State = State(
    max: Pos,
    link: Links,
    descs: map<nat, Desc>,
    partials: seq<nat>,
    threads: map<nat, Thread>,
    used: set<Block>)

  datatype Label =
    | Malloc(t: nat)
    | Free(t: nat, b: Block)
    | Write(b: Block, p: Ptr)
    | NewSb(t: nat, d: nat)
    | FlushBegin(t: nat)
    | FlushLoad(t: nat)
    | FlushRetry(t: nat)
    | FlushCas(t: nat)
    | Push(t: nat)
    | Unmap(t: nat)
    | Pop(t: nat)
    | Load(t: nat)
    | Retire(t: nat)
    | Reserve(t: nat)

  /** A thread that has not stepped yet is idle with an empty bin. */
  function Th(s: State, t: nat): Thread {
    if t in s.threads then s.threads[t] else Thread(Idle, Null, 0)
  }

  function SetTh(s: State, t: nat, th: Thread): State {
    s.(threads := s.threads[t := th])
  }

  function SetPc(s: State, t: nat, pc: Pc): State {
    SetTh(s, t, Th(s, t).(pc := pc))
  }

  predicate Mapped(s: State, b: Block) {
    b.desc in s.descs && s.descs[b.desc].mapped
  }

  predicate InSuperBlock(s: State, p: Ptr, d: nat) {
    p.To? && p.block.desc == d && p.block.idx < s.max
  }

  /** Length of the longest run of cached blocks from `p` inside superblock `d`. */
  function RunLength(s: State, p: Ptr, n: nat, d: nat): (k: nat)
    ensures k <= n
    decreases n
  {
    if n == 0 || !InSuperBlock(s, p, d) then 0
    else 1 + RunLength(s, Next(s.link, p.block), n - 1, d)
  }

  /** The anchor the flush of `n` blocks starting at block `index` tries to install. */
  function FlushedAnchor(s: State, seen: Anchor, index: nat, n: nat): Anchor {
    if seen.count + n == s.max then
      Anchor(EMPTY, index, s.max - 1)
    else
      Anchor(if seen.state == FULL then PARTIAL else seen.state, index, n)
  }

  /** Every block of a fresh superblock links to the next one, the last one to null. */
  function FreshNext(b: Block, max: nat): Ptr {
    if b.idx + 1 < max then To(Block(b.desc, b.idx + 1)) else Null
  }

  function FreshLinks(d: nat, max: nat): Links {
    map b | b in BlocksOf(d, max) :: FreshNext(b, max)
  }

  /**
    When a step can be taken.  A thread that touches a block of an unmapped superblock
    faults, so steps that read or write a block need it mapped; `Unmap` needs the
    descriptor to hold a segment, since the source unwraps it.
    */
  predicate Enabled(s: State, l: Label) {
    match l
    case Malloc(t) =>
      Th(s, t).pc.Idle? && Th(s, t).num > 0 && Th(s, t).head.To? && Mapped(s, Th(s, t).head.block)
    case Free(t, b) =>
      Th(s, t).pc.Idle? && b in s.used && Mapped(s, b)
    case Write(b, _) =>
      b in s.used && Mapped(s, b)
    case NewSb(t, d) =>
      Th(s, t).pc.Idle? && Th(s, t).num == 0 && (d in s.descs ==> s.descs[d].free)
    case FlushBegin(t) =>
      Th(s, t).pc.Idle? && Th(s, t).num > 0 && Th(s, t).head.To? && Mapped(s, Th(s, t).head.block)
      && RunLength(s, Th(s, t).head, Th(s, t).num, Th(s, t).head.block.desc) > 0
    case FlushLoad(t) =>
      Th(s, t).pc.Flushing? && Th(s, t).pc.d in s.descs && Mapped(s, Th(s, t).pc.tail)
    case FlushRetry(t) =>
      Th(s, t).pc.Linked?
    case FlushCas(t) =>
      var pc := Th(s, t).pc;
      pc.Linked? && pc.d in s.descs && s.descs[pc.d].anchor == pc.seen
    case Push(t) =>
      Th(s, t).pc.Pushing?
    case Unmap(t) =>
      var pc := Th(s, t).pc;
      pc.Unmapping? && pc.d in s.descs && s.descs[pc.d].mapped
    case Pop(t) =>
      Th(s, t).pc.Idle? && Th(s, t).num == 0 && s.partials != []
    case Load(t) =>
      Th(s, t).pc.Popped? && Th(s, t).pc.d in s.descs
    case Retire(t) =>
      var pc := Th(s, t).pc;
      pc.Reserving? && pc.seen.state == EMPTY && pc.d in s.descs
    case Reserve(t) =>
      var pc := Th(s, t).pc;
      pc.Reserving? && pc.seen.state != EMPTY && pc.d in s.descs && s.descs[pc.d].anchor == pc.seen
  }

  function Step(s: State, l: Label): State
    requires Enabled(s, l)
  {
    match l
    case Malloc(t) =>
      var th := Th(s, t);
      SetTh(s, t, th.(head := Next(s.link, th.head.block), num := th.num - 1))
        .(used := s.used + {th.head.block})
    case Free(t, b) =>
      var th := Th(s, t);
      SetTh(s, t, th.(head := To(b), num := th.num + 1))
        .(used := s.used - {b}, link := s.link[b := th.head])
    case Write(b, p) =>
      s.(link := s.link[b := p])
    case NewSb(t, d) =>
      var life := if d in s.descs then s.descs[d].life + 1 else 1;
      SetTh(s, t, Th(s, t).(head := To(Block(d, 0)), num := s.max))
        .(link := s.link + FreshLinks(d, s.max),
          descs := s.descs[d := Desc(Anchor(FULL, s.max, 0), life, true, false)])
    case FlushBegin(t) =>
      var th := Th(s, t);
      var d := th.head.block.desc;
      var k := RunLength(s, th.head, th.num, d);
      var tail := RunTail(s, th.head, th.num, d);
      SetTh(s, t, Thread(Flushing(d, th.head.block, tail, k), Next(s.link, tail), th.num - k))
    case FlushLoad(t) =>
      var pc := Th(s, t).pc;
      var seen := s.descs[pc.d].anchor;
      SetPc(s, t, Linked(pc.d, pc.first, pc.tail, pc.n, seen))
        .(link := s.link[pc.tail := To(Block(pc.d, seen.avail))])
    case FlushRetry(t) =>
      var pc := Th(s, t).pc;
      SetPc(s, t, Flushing(pc.d, pc.first, pc.tail, pc.n))
    case FlushCas(t) =>
      var pc := Th(s, t).pc;
      var desc := s.descs[pc.d];
      var new' := FlushedAnchor(s, pc.seen, pc.first.idx, pc.n);
      SetPc(s, t,
            if new'.state == EMPTY then Unmapping(pc.d, desc.life)
            else if pc.seen.state == FULL then Pushing(pc.d)
            else Idle)
        .(descs := s.descs[pc.d := desc.(anchor := new')])
    case Push(t) =>
      SetPc(s, t, Idle).(partials := [Th(s, t).pc.d] + s.partials)
    case Unmap(t) =>
      var d := Th(s, t).pc.d;
      SetPc(s, t, Idle).(descs := s.descs[d := s.descs[d].(mapped := false)])
    case Pop(t) =>
      SetPc(s, t, Popped(s.partials[0])).(partials := s.partials[1..])
    case Load(t) =>
      var d := Th(s, t).pc.d;
      SetPc(s, t, Reserving(d, s.descs[d].anchor))
    case Retire(t) =>
      var d := Th(s, t).pc.d;
      SetPc(s, t, Idle).(descs := s.descs[d := s.descs[d].(free := true)])
    case Reserve(t) =>
      var pc := Th(s, t).pc;
      SetTh(s, t, Thread(Idle, To(Block(pc.d, pc.seen.avail)), pc.seen.count))
        .(descs := s.descs[pc.d := s.descs[pc.d].(anchor := Anchor(FULL, s.max, 0))])
  }

  /** The last block of the run that `RunLength` measures. */
  function RunTail(s: State, p: Ptr, n: nat, d: nat): (tail: Block)
    requires RunLength(s, p, n, d) > 0
    decreases n
  {
    var q := Next(s.link, p.block);
    if RunLength(s, q, n - 1, d) == 0 then p.block else RunTail(s, q, n - 1, d)
  }

  /** The allocator as `init_malloc` leaves it, with superblocks of `max` blocks. */
  function Init(max: Pos): State {
    State(max, map[], map[], [], map[], {})
  }

  /** `ls` can be taken one after the other from `s`. */
  predicate CanRun(s: State, ls: seq<Label>)
    decreases |ls|
  {
    ls == [] || (Enabled(s, ls[0]) && CanRun(Step(s, ls[0]), ls[1..]))
  }

  function Run(s: State, ls: seq<Label>): State
    requires CanRun(s, ls)
    decreases |ls|
  {
    if ls == [] then s else Run(Step(s, ls[0]), ls[1..])
  }
}
