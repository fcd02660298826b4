/**
  Blocks that a flush loses.  A flush onto a PARTIAL superblock overwrites the anchor's count
  with the length of its own run, so the chain that was there is linked but no longer counted.
  */
module ProtocolLoss {
  import opened Chains
  import opened Protocol
  import opened ProtocolInvariant
  import opened ProtocolSafety
  import opened ProtocolUnmap

  ghost predicate Lost(s: State, b: Block) {
    exists o :: Good(s, o) && Held(o.h, b, Dropped)
  }

  /** A lost block is nowhere, and its superblock is still in service. */
  lemma LostIsNowhere(s: State, b: Block)
    requires Lost(s, b)
    ensures b.desc in s.descs && b.idx < s.max
    ensures s.descs[b.desc].anchor.state != EMPTY && !s.descs[b.desc].free
    ensures forall p :: !At(s, b, p)
  {
    var o :| Good(s, o) && Held(o.h, b, Dropped);
    DroppedInService(s, o, b);
    forall p ensures !At(s, b, p) {
      DroppedNowhere(s, o, b, p);
    }
  }

  lemma DroppedInService(s: State, o: Owners, b: Block)
    requires Good(s, o) && Held(o.h, b, Dropped)
    ensures b.desc in s.descs && b.idx < s.max
    ensures s.descs[b.desc].anchor.state != EMPTY && !s.descs[b.desc].free
  {
    assert b.desc in s.descs && DescOk(s, o, b.desc);
  }

  lemma DroppedNowhere(s: State, o: Owners, b: Block, p: Place)
    requires Good(s, o) && Held(o.h, b, Dropped)
    ensures !At(s, b, p)
  {
    AtIsHeld(s, o, b, p);
  }

  /** It stays lost in every continuation. */
  lemma {:induction false} LostForever(s: State, ls: seq<Label>, b: Block)
    requires Lost(s, b) && CanRun(s, ls)
    ensures Lost(Run(s, ls), b)
    decreases |ls|
  {
    if ls != [] {
      var o :| Good(s, o) && Held(o.h, b, Dropped);
      var o' := StepGood(s, o, ls[0]);
      LostForever(Step(s, ls[0]), ls[1..], b);
    }
  }

  /** A flush that does not empty the superblock loses the whole chain it found. */
  lemma FlushLoses(s: State, t: nat, b: Block)
    requires Inv(s) && Enabled(s, FlushCas(t)) && At(s, b, OnChain(Th(s, t).pc.d))
    requires Step(s, FlushCas(t)).descs[Th(s, t).pc.d].anchor.state != EMPTY
    ensures Lost(Step(s, FlushCas(t)), b)
  {
    var o :| Good(s, o);
    AtIsHeld(s, o, b, OnChain(Th(s, t).pc.d));
    var o' := FlushCasGood(s, o, t);
  }

  /** So after such a flush, in every continuation, no block of the old chain is ever used or
      cached again, and the superblock is never emptied, retired or released. */
  lemma LossIsPermanent(s: State, t: nat, ls: seq<Label>, b: Block)
    requires Inv(s) && Enabled(s, FlushCas(t)) && At(s, b, OnChain(Th(s, t).pc.d))
    requires Step(s, FlushCas(t)).descs[Th(s, t).pc.d].anchor.state != EMPTY
    requires CanRun(Step(s, FlushCas(t)), ls)
    ensures var s' := Run(Step(s, FlushCas(t)), ls);
            && (forall p :: !At(s', b, p))
            && b.desc in s'.descs && s'.descs[b.desc].anchor.state != EMPTY && !s'.descs[b.desc].free
  {
    FlushLoses(s, t, b);
    LostForever(Step(s, FlushCas(t)), ls, b);
    LostIsNowhere(Run(Step(s, FlushCas(t)), ls), b);
  }

  // ---- only the count is lost ------------------------------------------------------------

  /** A thread about to swap the anchor has linked its run to the chain it saw. */
  ghost predicate Joined(s: State) {
    forall t: nat | Th(s, t).pc.Linked? :: TailJoined(s, t)
  }

  predicate TailJoined(s: State, t: nat)
    requires Th(s, t).pc.Linked?
  {
    Next(s.link, Th(s, t).pc.tail) == To(Block(Th(s, t).pc.d, Th(s, t).pc.seen.avail))
  }

  lemma TailInFlight(s: State, o: Owners, t: nat)
    requires Good(s, o) && (Th(s, t).pc.Flushing? || Th(s, t).pc.Linked?)
    ensures Held(o.h, Th(s, t).pc.tail, Flight(t)) && Th(s, t).pc.tail.desc == Th(s, t).pc.d
  {
    assert ThreadOk(s, o, t);
    var pc := Th(s, t).pc;
    assert pc.tail in Walk(s.link, To(pc.first), pc.n);
  }

  /** Nobody else writes the link of the last block of a run in flight. */
  lemma TailUnwritten(s: State, o: Owners, l: Label, t: nat)
    requires Good(s, o) && Enabled(s, l) && Th(s, t).pc.Linked? && l != FlushLoad(t)
    ensures Next(Step(s, l).link, Th(s, t).pc.tail) == Next(s.link, Th(s, t).pc.tail)
  {
    TailInFlight(s, o, t);
    FlushTarget(s, o, t);
    if l.FlushLoad? {
      TailInFlight(s, o, l.t);
    }
    LinkUnwritten(s, l, Th(s, t).pc.tail);
  }

  /** A step writes links only of blocks in use, of a new superblock, or at the end of a run. */
  lemma LinkUnwritten(s: State, l: Label, b: Block)
    requires Enabled(s, l) && b !in s.used && b.desc in s.descs && !s.descs[b.desc].free
    requires l.FlushLoad? ==> b != Th(s, l.t).pc.tail
    ensures Next(Step(s, l).link, b) == Next(s.link, b)
  {
    if l.NewSb? {
      assert b !in FreshLinks(l.d, s.max);
    }
  }

  lemma StepKeepsJoined(s: State, l: Label)
    requires Inv(s) && Joined(s) && Enabled(s, l)
    ensures Joined(Step(s, l))
  {
    var o :| Good(s, o);
    forall t: nat | Th(Step(s, l), t).pc.Linked? ensures TailJoined(Step(s, l), t) {
      if l == FlushLoad(t) {
        LoadJoins(s, t);
      } else {
        LinkedBefore(s, l, t);
        assert TailJoined(s, t);
        TailUnwritten(s, o, l, t);
      }
    }
  }

  lemma LoadJoins(s: State, t: nat)
    requires Enabled(s, FlushLoad(t))
    ensures Th(Step(s, FlushLoad(t)), t).pc.Linked? && TailJoined(Step(s, FlushLoad(t)), t)
  {}

  lemma LinkedBefore(s: State, l: Label, t: nat)
    requires Enabled(s, l) && Th(Step(s, l), t).pc.Linked? && l != FlushLoad(t)
    ensures Th(s, t).pc == Th(Step(s, l), t).pc
  {}

  lemma {:induction false} RunKeepsJoined(s: State, ls: seq<Label>)
    requires Inv(s) && Joined(s) && CanRun(s, ls)
    ensures Joined(Run(s, ls))
    decreases |ls|
  {
    if ls != [] {
      StepKeepsInv(s, ls[0]);
      StepKeepsJoined(s, ls[0]);
      RunKeepsJoined(Step(s, ls[0]), ls[1..]);
    }
  }

  /** The links are right: when a flush swaps the anchor in any run, following them from its
      first block gives the run and then the whole chain it found. */
  lemma FlushJoinsChain(max: Pos, ls: seq<Label>, s: State, t: nat)
    requires CanRun(Init(max), ls) && s == Run(Init(max), ls) && Enabled(s, FlushCas(t))
    ensures var pc := Th(s, t).pc;
            Walk(Step(s, FlushCas(t)).link, To(pc.first), pc.n + pc.seen.count) == FlightOf(s, t) + ChainOf(s, pc.d)
  {
    AlwaysJoined(max, ls);
    SwapJoinsChain(s, t);
  }

  lemma AlwaysJoined(max: Pos, ls: seq<Label>)
    requires CanRun(Init(max), ls)
    ensures Inv(Run(Init(max), ls)) && Joined(Run(Init(max), ls))
  {
    InitGood(max);
    RunKeepsInv(Init(max), ls);
    RunKeepsJoined(Init(max), ls);
  }

  lemma SwapJoinsChain(s: State, t: nat)
    requires Inv(s) && Joined(s) && Enabled(s, FlushCas(t))
    ensures var pc := Th(s, t).pc;
            Walk(Step(s, FlushCas(t)).link, To(pc.first), pc.n + pc.seen.count) == FlightOf(s, t) + ChainOf(s, pc.d)
  {
    var o :| Good(s, o);
    FlushTarget(s, o, t);
    assert TailJoined(s, t);
    JoinedWalk(s, o, t);
  }

  lemma JoinedWalk(s: State, o: Owners, t: nat)
    requires Th(s, t).pc.Linked? && ThreadOk(s, o, t) && TailJoined(s, t)
    requires var pc := Th(s, t).pc; pc.d in s.descs && s.descs[pc.d].anchor == pc.seen && pc.seen.state != EMPTY
    ensures var pc := Th(s, t).pc;
            Walk(s.link, To(pc.first), pc.n + pc.seen.count) == FlightOf(s, t) + ChainOf(s, pc.d)
  {
    var pc := Th(s, t).pc;
    WalkJoin(s.link, To(pc.first), pc.n, pc.seen.count);
  }

  // ---- conservation: exactly when nothing is lost ----------------------------------------

  /** Every block of every superblock in service is in use, in a cache, in flight or on a
      counted chain. */
  ghost predicate AllPlaced(s: State) {
    forall b: Block | b.desc in s.descs && b.idx < s.max && s.descs[b.desc].anchor.state != EMPTY ::
      exists p :: At(s, b, p)
  }

  predicate CarefulRun(s: State, ls: seq<Label>)
    requires CanRun(s, ls)
    decreases |ls|
  {
    ls == [] || (Careful(s, ls[0]) && CarefulRun(Step(s, ls[0]), ls[1..]))
  }

  /** No block has been dropped so far. */
  ghost predicate Kept(s: State) {
    exists o :: Good(s, o) && forall b :: !Held(o.h, b, Dropped)
  }

  lemma KeptIsPlaced(s: State)
    requires Kept(s)
    ensures AllPlaced(s)
  {
    var o :| Good(s, o) && forall b :: !Held(o.h, b, Dropped);
    forall b: Block | b.desc in s.descs && b.idx < s.max && s.descs[b.desc].anchor.state != EMPTY
      ensures exists p :: At(s, b, p)
    {
      assert !Held(o.h, b, Dropped);
      var p := HeldIsPlaced(s, o, b);
    }
  }

  lemma HeldIsPlaced(s: State, o: Owners, b: Block) returns (p: Place)
    requires Good(s, o) && !Held(o.h, b, Dropped)
    requires b.desc in s.descs && b.idx < s.max && s.descs[b.desc].anchor.state != EMPTY
    ensures At(s, b, p)
  {
    assert b in o.h && o.h[b] != Gone;
    p := match o.h[b]
      case Cache(t) => InCache(t)
      case Flight(t) => InFlight(t)
      case Chain(d) => OnChain(d)
      case _ => InUse;
    AtIsHeld(s, o, b, p);
  }

  lemma CarefulKeeps(s: State, l: Label)
    requires Kept(s) && Enabled(s, l) && Careful(s, l)
    ensures Kept(Step(s, l))
  {
    var o :| Good(s, o) && forall b :: !Held(o.h, b, Dropped);
    var o' := StepGood(s, o, l);
    forall b ensures !Held(o'.h, b, Dropped) {
      assert !Held(o.h, b, Dropped);
    }
  }

  /** A flush that is not careful finds a chain and loses its first block. */
  lemma CarelessLoses(s: State, l: Label) returns (b: Block)
    requires Inv(s) && Enabled(s, l) && !Careful(s, l)
    ensures Lost(Step(s, l), b)
  {
    var d := Th(s, l.t).pc.d;
    b := Block(d, s.descs[d].anchor.avail);
    TargetLive(s, l.t);
    ChainHead(s, d);
    FlushLoses(s, l.t, b);
  }

  lemma ChainHead(s: State, d: nat)
    requires Inv(s) && d in s.descs && s.descs[d].anchor.state == PARTIAL
    ensures At(s, Block(d, s.descs[d].anchor.avail), OnChain(d))
  {
    var o :| Good(s, o);
    assert DescOk(s, o, d);
    CountedHead(s, d, s.descs[d].anchor.count);
  }

  lemma CountedHead(s: State, d: nat, n: nat)
    requires d in s.descs && s.descs[d].anchor.state == PARTIAL && n == s.descs[d].anchor.count > 0
    ensures At(s, Block(d, s.descs[d].anchor.avail), OnChain(d))
  {
    assert ChainOf(s, d)[0] == Block(d, s.descs[d].anchor.avail);
  }

  /** Conservation holds at the end of a run exactly if every flush in it found a FULL
      superblock or returned all that was missing. */
  lemma {:induction false} ConservedFrom(s: State, ls: seq<Label>)
    requires Kept(s) && CanRun(s, ls)
    ensures AllPlaced(Run(s, ls)) <==> CarefulRun(s, ls)
    decreases |ls|
  {
    if ls == [] {
      KeptIsPlaced(s);
    } else if Careful(s, ls[0]) {
      CarefulKeeps(s, ls[0]);
      ConservedFrom(Step(s, ls[0]), ls[1..]);
    } else {
      var b := CarelessLoses(s, ls[0]);
      LostForever(Step(s, ls[0]), ls[1..], b);
      NotPlaced(Run(s, ls), b);
    }
  }

  lemma NotPlaced(s: State, b: Block)
    requires Lost(s, b)
    ensures !AllPlaced(s)
  {
    LostIsNowhere(s, b);
  }

  lemma ConservedIffCareful(max: Pos, ls: seq<Label>)
    requires CanRun(Init(max), ls)
    ensures AllPlaced(Run(Init(max), ls)) <==> CarefulRun(Init(max), ls)
  {
    var o := Owners(map[], map[]);
    forall t ensures ThreadOk(Init(max), o, t) {}
    assert Good(Init(max), o);
    ConservedFrom(Init(max), ls);
  }

  // ---- it happens: three blocks, one flushed, a second one flushed on top of it -------------

  const C0 := Block(0, 0)
  const C1 := Block(0, 1)
  const C2 := Block(0, 2)

  lemma LossFresh() returns (ls: seq<Label>)
    ensures CanRun(Init(3), ls)
    ensures var s := Run(Init(3), ls);
            && s.max == 3 && s.used == {} && s.partials == [] && s.threads == map[0 := Thread(Idle, To(C0), 3)]
            && s.descs == map[0 := Desc(Anchor(FULL, 3, 0), 1, true, false)]
            && Next(s.link, C0) == To(C1) && Next(s.link, C1) == To(C2)
  {
    ls := [];
    Extend(Init(3), ls, NewSb(0, 0));
    ls := ls + [NewSb(0, 0)];
  }

  lemma LossStart() returns (ls: seq<Label>)
    ensures CanRun(Init(3), ls)
    ensures var s := Run(Init(3), ls);
            && s.max == 3 && s.used == {C0, C1} && s.partials == [] && s.threads == map[0 := Thread(Idle, To(C2), 1)]
            && s.descs == map[0 := Desc(Anchor(FULL, 3, 0), 1, true, false)]
  {
    ls := LossFresh();
    Extend(Init(3), ls, Malloc(0));
    ls := ls + [Malloc(0)];
    Extend(Init(3), ls, Malloc(0));
    ls := ls + [Malloc(0)];
  }

  lemma LossRun() returns (ls: seq<Label>)
    ensures CanRun(Init(3), ls)
    ensures var s := Run(Init(3), ls);
            && s.max == 3 && s.used == {C0, C1} && s.partials == [] && s.threads.Keys == {0}
            && s.descs == map[0 := Desc(Anchor(FULL, 3, 0), 1, true, false)]
            && Th(s, 0).pc == Flushing(0, C2, C2, 1) && Th(s, 0).num == 0
  {
    ls := LossStart();
    var s := Run(Init(3), ls);
    assert RunLength(s, Next(s.link, C2), 0, 0) == 0;
    assert RunLength(s, To(C2), 1, 0) == 1 && RunTail(s, To(C2), 1, 0) == C2;
    Extend(Init(3), ls, FlushBegin(0));
    ls := ls + [FlushBegin(0)];
  }

  lemma LossPartial() returns (ls: seq<Label>)
    ensures CanRun(Init(3), ls)
    ensures var s := Run(Init(3), ls);
            && s.max == 3 && s.used == {C0, C1} && s.partials == [0] && s.threads.Keys == {0}
            && s.descs == map[0 := Desc(Anchor(PARTIAL, 2, 1), 1, true, false)]
            && Th(s, 0).pc == Idle && Th(s, 0).num == 0
  {
    ls := LossRun();
    Extend(Init(3), ls, FlushLoad(0));
    ls := ls + [FlushLoad(0)];
    Extend(Init(3), ls, FlushCas(0));
    ls := ls + [FlushCas(0)];
    Extend(Init(3), ls, Push(0));
    ls := ls + [Push(0)];
  }

  lemma LossFreed() returns (ls: seq<Label>)
    ensures CanRun(Init(3), ls)
    ensures var s := Run(Init(3), ls);
            && s.max == 3 && s.partials == [0] && s.threads.Keys == {0}
            && s.descs == map[0 := Desc(Anchor(PARTIAL, 2, 1), 1, true, false)]
            && Th(s, 0).pc == Flushing(0, C1, C1, 1)
  {
    ls := LossPartial();
    Extend(Init(3), ls, Free(0, C1));
    ls := ls + [Free(0, C1)];
    var s := Run(Init(3), ls);
    assert RunLength(s, Next(s.link, C1), 0, 0) == 0;
    assert RunLength(s, To(C1), 1, 0) == 1 && RunTail(s, To(C1), 1, 0) == C1;
    Extend(Init(3), ls, FlushBegin(0));
    ls := ls + [FlushBegin(0)];
  }

  lemma LossLoaded() returns (ls: seq<Label>)
    ensures CanRun(Init(3), ls)
    ensures var s := Run(Init(3), ls);
            && s.max == 3 && s.partials == [0] && s.threads.Keys == {0}
            && s.descs == map[0 := Desc(Anchor(PARTIAL, 2, 1), 1, true, false)]
            && Th(s, 0).pc == Linked(0, C1, C1, 1, Anchor(PARTIAL, 2, 1))
  {
    ls := LossFreed();
    Extend(Init(3), ls, FlushLoad(0));
    ls := ls + [FlushLoad(0)];
  }

  /** Thread 0 is about to swap in the run of the second block. */
  lemma LossHappens() returns (ls: seq<Label>)
    ensures CanRun(Init(3), ls)
    ensures var s := Run(Init(3), ls);
            && Inv(s) && Enabled(s, FlushCas(0)) && At(s, C2, OnChain(Th(s, 0).pc.d))
            && Step(s, FlushCas(0)).descs[Th(s, 0).pc.d].anchor.state != EMPTY
  {
    ls := LossLoaded();
    InitGood(3);
    RunKeepsInv(Init(3), ls);
    ChainHead(Run(Init(3), ls), 0);
  }
}
