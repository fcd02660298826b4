/**
  What holds in every run of the superblock protocol, stated on the concrete state: thread
  caches, runs in flight, counted free chains, anchors and the partial list.
  */
module ProtocolSafety {
  import opened Chains
  import opened Protocol
  import opened ProtocolInvariant

  // Every step and every run

  /** A flush that finds a FULL superblock or returns all that is missing from it. */
  predicate Careful(s: State, l: Label)
    requires Enabled(s, l)
  {
    l.FlushCas? ==>
      var pc := Th(s, l.t).pc;
      s.descs[pc.d].anchor.state == FULL || s.descs[pc.d].anchor.count + pc.n == s.max
  }

  lemma StepGood(s: State, o: Owners, l: Label) returns (o': Owners)
    requires Good(s, o) && Enabled(s, l)
    ensures Good(Step(s, l), o') && KeepsDropped(o, o')
    ensures Careful(s, l) ==> SameHeld(o.h, o'.h, Dropped)
  {
    if l.FlushCas? {
      o' := FlushCasGood(s, o, l.t);
    } else if l.Malloc? || l.Free? || l.Write? || l.FlushBegin? || l.FlushLoad? || l.FlushRetry? {
      o' := CacheStepGood(s, o, l);
    } else {
      o' := ListStepGood(s, o, l);
    }
  }

  /** Steps on caches and runs in flight. */
  lemma CacheStepGood(s: State, o: Owners, l: Label) returns (o': Owners)
    requires Good(s, o) && Enabled(s, l)
    requires l.Malloc? || l.Free? || l.Write? || l.FlushBegin? || l.FlushLoad? || l.FlushRetry?
    ensures Good(Step(s, l), o') && SameHeld(o.h, o'.h, Dropped)
  {
    o' := o;
    match l {
      case Malloc(t) => o' := MallocGood(s, o, t);
      case Free(t, b) => o' := FreeGood(s, o, t, b);
      case Write(b, p) => WriteGood(s, o, b, p);
      case FlushBegin(t) => o' := FlushBeginGood(s, o, t);
      case FlushLoad(t) => FlushLoadGood(s, o, t);
      case FlushRetry(t) => FlushRetryGood(s, o, t);
    }
  }

  /** Steps on descriptors and the partial list. */
  lemma ListStepGood(s: State, o: Owners, l: Label) returns (o': Owners)
    requires Good(s, o) && Enabled(s, l)
    requires l.NewSb? || l.Push? || l.Unmap? || l.Pop? || l.Load? || l.Retire? || l.Reserve?
    ensures Good(Step(s, l), o') && SameHeld(o.h, o'.h, Dropped)
  {
    o' := o;
    match l {
      case NewSb(t, d) => o' := NewSbGood(s, o, t, d);
      case Push(t) => o' := PushGood(s, o, t);
      case Unmap(t) => o' := UnmapGood(s, o, t);
      case Pop(t) => o' := PopGood(s, o, t);
      case Load(t) => LoadGood(s, o, t);
      case Retire(t) => o' := RetireGood(s, o, t);
      case Reserve(t) => o' := ReserveGood(s, o, t);
    }
  }

  lemma StepKeepsInv(s: State, l: Label)
    requires Inv(s) && Enabled(s, l)
    ensures Inv(Step(s, l))
  {
    var o :| Good(s, o);
    var o' := StepGood(s, o, l);
  }

  lemma {:induction false} RunKeepsInv(s: State, ls: seq<Label>)
    requires Inv(s) && CanRun(s, ls)
    ensures Inv(Run(s, ls))
    decreases |ls|
  {
    if ls != [] {
      StepKeepsInv(s, ls[0]);
      RunKeepsInv(Step(s, ls[0]), ls[1..]);
    }
  }

  // Where a block is

  datatype Place = InUse | InCache(t: nat) | InFlight(t: nat) | OnChain(d: nat)

  function CacheOf(s: State, t: nat): seq<Block> {
    Walk(s.link, Th(s, t).head, Th(s, t).num)
  }

  /** The run thread `t` has taken out of its cache and not yet returned. */
  function FlightOf(s: State, t: nat): seq<Block> {
    Walk(s.link, RunPtr(Th(s, t).pc), RunNum(Th(s, t).pc))
  }

  /** The blocks met by `count` links from `avail`, unless the superblock is empty. */
  function ChainOf(s: State, d: nat): seq<Block> {
    if d in s.descs && s.descs[d].anchor.state != EMPTY
    then Walk(s.link, To(Block(d, s.descs[d].anchor.avail)), s.descs[d].anchor.count)
    else []
  }

  predicate At(s: State, b: Block, p: Place) {
    match p
    case InUse => b in s.used
    case InCache(t) => b in CacheOf(s, t)
    case InFlight(t) => b in FlightOf(s, t)
    case OnChain(d) => b in ChainOf(s, d)
  }

  function HolderOf(p: Place): Holder {
    match p
    case InUse => User
    case InCache(t) => Cache(t)
    case InFlight(t) => Flight(t)
    case OnChain(d) => Chain(d)
  }

  lemma AtIsHeld(s: State, o: Owners, b: Block, p: Place)
    requires Good(s, o)
    ensures At(s, b, p) <==> Held(o.h, b, HolderOf(p))
  {
    match p
    case InUse =>
    case InCache(t) => assert ThreadOk(s, o, t);
    case InFlight(t) => assert ThreadOk(s, o, t);
    case OnChain(d) =>
      if d in s.descs {
        assert DescOk(s, o, d);
      }
  }

  /** Ownership safety: the caches, runs in flight and counted chains have exactly the lengths
      the allocator believes, repeat no block, stay inside their superblock, and no block is
      ever in two places. */
  lemma OneHolder(max: Pos, ls: seq<Label>)
    requires CanRun(Init(max), ls)
    ensures var s := Run(Init(max), ls);
            && (forall t :: |CacheOf(s, t)| == Th(s, t).num && Distinct(CacheOf(s, t)))
            && (forall t :: |FlightOf(s, t)| == RunNum(Th(s, t).pc) && Distinct(FlightOf(s, t)))
            && (forall d | d in s.descs && s.descs[d].anchor.state != EMPTY ::
                 && |ChainOf(s, d)| == s.descs[d].anchor.count && Distinct(ChainOf(s, d))
                 && forall b | b in ChainOf(s, d) :: b.desc == d && b.idx < s.max)
            && forall b, p, q | At(s, b, p) && At(s, b, q) :: p == q
  {
    InitGood(max);
    RunKeepsInv(Init(max), ls);
    InvOneHolder(Run(Init(max), ls));
  }

  lemma InvOneHolder(s: State)
    requires Inv(s)
    ensures forall t :: |CacheOf(s, t)| == Th(s, t).num && Distinct(CacheOf(s, t))
    ensures forall t :: |FlightOf(s, t)| == RunNum(Th(s, t).pc) && Distinct(FlightOf(s, t))
    ensures forall d | d in s.descs && s.descs[d].anchor.state != EMPTY ::
              && |ChainOf(s, d)| == s.descs[d].anchor.count && Distinct(ChainOf(s, d))
              && forall b | b in ChainOf(s, d) :: b.desc == d && b.idx < s.max
    ensures forall b, p, q | At(s, b, p) && At(s, b, q) :: p == q
  {
    var o :| Good(s, o);
    forall t
      ensures |CacheOf(s, t)| == Th(s, t).num && Distinct(CacheOf(s, t))
      ensures |FlightOf(s, t)| == RunNum(Th(s, t).pc) && Distinct(FlightOf(s, t))
    {
      ThreadLengths(s, o, t);
    }
    forall d | d in s.descs && s.descs[d].anchor.state != EMPTY
      ensures |ChainOf(s, d)| == s.descs[d].anchor.count && Distinct(ChainOf(s, d))
      ensures forall b | b in ChainOf(s, d) :: b.desc == d && b.idx < s.max
    {
      ChainLength(s, o, d);
    }
    forall b, p, q | At(s, b, p) && At(s, b, q) ensures p == q {
      OnePlace(s, o, b, p, q);
    }
  }

  lemma ThreadLengths(s: State, o: Owners, t: nat)
    requires Good(s, o)
    ensures |CacheOf(s, t)| == Th(s, t).num && Distinct(CacheOf(s, t))
    ensures |FlightOf(s, t)| == RunNum(Th(s, t).pc) && Distinct(FlightOf(s, t))
  {
    assert ThreadOk(s, o, t);
  }

  lemma ChainLength(s: State, o: Owners, d: nat)
    requires Good(s, o) && d in s.descs && s.descs[d].anchor.state != EMPTY
    ensures |ChainOf(s, d)| == s.descs[d].anchor.count && Distinct(ChainOf(s, d))
    ensures forall b | b in ChainOf(s, d) :: b.desc == d && b.idx < s.max
  {
    assert DescOk(s, o, d);
    forall b | b in ChainOf(s, d) ensures b.desc == d && b.idx < s.max {
      AtIsHeld(s, o, b, OnChain(d));
    }
  }

  lemma OnePlace(s: State, o: Owners, b: Block, p: Place, q: Place)
    requires Good(s, o) && At(s, b, p) && At(s, b, q)
    ensures p == q
  {
    AtIsHeld(s, o, b, p);
    AtIsHeld(s, o, b, q);
  }

  lemma OnlyAt(s: State, b: Block, p: Place)
    requires Inv(s) && At(s, b, p)
    ensures forall q :: At(s, b, q) <==> q == p
  {
    InvOneHolder(s);
  }

  lemma HeadCached(s: State, t: nat)
    requires Th(s, t).num > 0 && |CacheOf(s, t)| == Th(s, t).num
    ensures Th(s, t).head.To? && Th(s, t).head.block in CacheOf(s, t)
  {
    assert CacheOf(s, t)[0] == Th(s, t).head.block;
  }

  /** A block handed to a user was in the thread's cache and with no user, and is afterwards
      in no cache, no run in flight and on no chain. */
  lemma MallocHandsOutOnce(s: State, t: nat)
    requires Inv(s) && Enabled(s, Malloc(t))
    ensures var b := Th(s, t).head.block;
            var s' := Step(s, Malloc(t));
            && b !in s.used && s'.used == s.used + {b}
            && forall p :: At(s', b, p) <==> p == InUse
  {
    var b := Th(s, t).head.block;
    var s' := Step(s, Malloc(t));
    assert b !in s.used by {
      InvOneHolder(s);
      HeadCached(s, t);
      assert At(s, b, InCache(t));
      assert !At(s, b, InUse);
    }
    assert Inv(s') by { StepKeepsInv(s, Malloc(t)); }
    assert At(s', b, InUse);
    OnlyAt(s', b, InUse);
  }

  /** The source's run-time checks never fail: a non-empty cache has a usable head whose run
      is not empty, and a reserved superblock gives at least one block, at an index inside
      it, to a cache that is empty. */
  lemma ChecksHold(s: State, t: nat)
    requires Inv(s)
    ensures Th(s, t).num > 0 ==>
              Th(s, t).head.To? && RunLength(s, Th(s, t).head, Th(s, t).num, Th(s, t).head.block.desc) > 0
    ensures Enabled(s, Reserve(t)) ==>
              Th(s, t).pc.seen.avail < s.max && Th(s, t).pc.seen.count > 0 && Th(s, t).num == 0
  {
    var o :| Good(s, o);
    if Th(s, t).num > 0 {
      CacheChecks(s, o, t);
    }
    if Enabled(s, Reserve(t)) {
      ReserveChecks(s, o, t);
    }
  }

  lemma CacheChecks(s: State, o: Owners, t: nat)
    requires Good(s, o) && Th(s, t).num > 0
    ensures Th(s, t).head.To? && RunLength(s, Th(s, t).head, Th(s, t).num, Th(s, t).head.block.desc) > 0
  {
    assert ThreadOk(s, o, t);
    HeadCached(s, t);
    var b := Th(s, t).head.block;
    assert Held(o.h, b, Cache(t)) && b in o.h;
  }

  lemma ReserveChecks(s: State, o: Owners, t: nat)
    requires Good(s, o) && Enabled(s, Reserve(t))
    ensures Th(s, t).pc.seen.avail < s.max && Th(s, t).pc.seen.count > 0 && Th(s, t).num == 0
  {
    var d := Th(s, t).pc.d;
    assert ThreadOk(s, o, t) && HasToken(Th(s, t).pc, d) && DescOk(s, o, d);
    var a := s.descs[d].anchor;
    var b := Block(d, a.avail);
    assert ChainOf(s, d)[0] == b;
    AtIsHeld(s, o, b, OnChain(d));
    assert b in o.h;
  }

  // EMPTY superblocks

  /** The compare-and-swap makes an anchor EMPTY only when every block of the superblock is
      in the run being returned or on the counted chain, although the count leaves out
      dropped blocks. */
  lemma EmptyOnlyWhenWhole(s: State, t: nat)
    requires Inv(s) && Enabled(s, FlushCas(t))
    requires Step(s, FlushCas(t)).descs[Th(s, t).pc.d].anchor.state == EMPTY
    ensures forall i | 0 <= i < s.max ::
              var b := Block(Th(s, t).pc.d, i); At(s, b, InFlight(t)) || At(s, b, OnChain(b.desc))
  {
    var o :| Good(s, o);
    FlushTarget(s, o, t);
    WholeHeld(s, o, t);
  }

  lemma WholeHeld(s: State, o: Owners, t: nat)
    requires Good(s, o) && Enabled(s, FlushCas(t))
    requires s.descs[Th(s, t).pc.d].anchor.count + Th(s, t).pc.n == s.max
    ensures forall i | 0 <= i < s.max ::
              var b := Block(Th(s, t).pc.d, i); At(s, b, InFlight(t)) || At(s, b, OnChain(b.desc))
  {
    EmptyCovers(s, o, t);
    var d := Th(s, t).pc.d;
    forall i | 0 <= i < s.max
      ensures var b := Block(d, i); At(s, b, InFlight(t)) || At(s, b, OnChain(b.desc))
    {
      var b := Block(d, i);
      assert b in o.h;
      AtIsHeld(s, o, b, InFlight(t));
      AtIsHeld(s, o, b, OnChain(d));
    }
  }

  ghost predicate Unheld(s: State, d: nat) {
    forall b, p | At(s, b, p) :: b.desc != d
  }

  /** A superblock has no block anywhere exactly when its anchor is EMPTY. */
  lemma UnheldIffEmpty(s: State, d: nat)
    requires Inv(s) && d in s.descs
    ensures Unheld(s, d) <==> s.descs[d].anchor.state == EMPTY
  {
    var o :| Good(s, o);
    if s.descs[d].anchor.state == EMPTY {
      EmptyUnheld(s, o, d);
    } else {
      var b, p := SomeHolder(s, o, d);
    }
  }

  lemma EmptyUnheld(s: State, o: Owners, d: nat)
    requires Good(s, o) && d in s.descs && s.descs[d].anchor.state == EMPTY
    ensures Unheld(s, d)
  {
    assert DescOk(s, o, d);
    forall b, p | At(s, b, p) ensures b.desc != d {
      AtIsHeld(s, o, b, p);
    }
  }

  lemma SomeHolder(s: State, o: Owners, d: nat) returns (b: Block, p: Place)
    requires Good(s, o) && d in s.descs && s.descs[d].anchor.state != EMPTY
    ensures At(s, b, p) && b.desc == d
  {
    assert DescOk(s, o, d);
    if s.descs[d].anchor.state == FULL {
      b :| b in o.h && b.desc == d && Live(o.h[b]);
      p := match o.h[b] case Cache(t) => InCache(t) case Flight(t) => InFlight(t) case _ => InUse;
      AtIsHeld(s, o, b, p);
    } else {
      b, p := Block(d, s.descs[d].anchor.avail), OnChain(d);
      assert ChainOf(s, d)[0] == b;
    }
  }

  // Tokens

  /** At most one list token per descriptor: on the partial list once, or with one thread. */
  lemma OneToken(max: Pos, ls: seq<Label>)
    requires CanRun(Init(max), ls)
    ensures var s := Run(Init(max), ls);
            && (forall i, j | 0 <= i < j < |s.partials| :: s.partials[i] != s.partials[j])
            && (forall d, t | d in s.partials :: !HasToken(Th(s, t).pc, d))
            && (forall d, t, u | HasToken(Th(s, t).pc, d) && HasToken(Th(s, u).pc, d) :: t == u)
            && (forall d | d in s.descs ::
                 var held := d in s.partials || exists t :: HasToken(Th(s, t).pc, d);
                 && (s.descs[d].anchor.state == FULL ==> !held)
                 && (s.descs[d].anchor.state == PARTIAL ==> held)
                 && (s.descs[d].free ==> !held && s.descs[d].anchor.state == EMPTY))
  {
    InitGood(max);
    RunKeepsInv(Init(max), ls);
    InvOneToken(Run(Init(max), ls));
  }

  lemma InvOneToken(s: State)
    requires Inv(s)
    ensures forall i, j | 0 <= i < j < |s.partials| :: s.partials[i] != s.partials[j]
    ensures forall d, t | d in s.partials :: !HasToken(Th(s, t).pc, d)
    ensures forall d, t, u | HasToken(Th(s, t).pc, d) && HasToken(Th(s, u).pc, d) :: t == u
    ensures forall d | d in s.descs ::
              var held := d in s.partials || exists t :: HasToken(Th(s, t).pc, d);
              && (s.descs[d].anchor.state == FULL ==> !held)
              && (s.descs[d].anchor.state == PARTIAL ==> held)
              && (s.descs[d].free ==> !held && s.descs[d].anchor.state == EMPTY)
  {
    var o :| Good(s, o);
    TokensKnown(s, o);
    forall d | d in s.descs
      ensures var held := d in s.partials || exists t :: HasToken(Th(s, t).pc, d);
              && (s.descs[d].anchor.state == FULL ==> !held)
              && (s.descs[d].anchor.state == PARTIAL ==> held)
              && (s.descs[d].free ==> !held && s.descs[d].anchor.state == EMPTY)
    {
      TokenOf(s, o, d);
    }
  }

  lemma TokensKnown(s: State, o: Owners)
    requires Good(s, o)
    ensures forall d, t :: HasToken(Th(s, t).pc, d) <==> (d in o.tok && o.tok[d] == With(t))
    ensures forall d, t, u | HasToken(Th(s, t).pc, d) && HasToken(Th(s, u).pc, d) :: t == u
    ensures forall d, t | d in s.partials :: !HasToken(Th(s, t).pc, d)
  {
    forall d, t ensures HasToken(Th(s, t).pc, d) <==> (d in o.tok && o.tok[d] == With(t)) {
      assert ThreadOk(s, o, t);
    }
    forall d, t, u | HasToken(Th(s, t).pc, d) && HasToken(Th(s, u).pc, d) ensures t == u {
      assert o.tok[d] == With(t) && o.tok[d] == With(u);
    }
  }

  lemma TokenOf(s: State, o: Owners, d: nat)
    requires Good(s, o) && d in s.descs
    ensures var held := d in s.partials || exists t :: HasToken(Th(s, t).pc, d);
            && (s.descs[d].anchor.state == FULL ==> !held)
            && (s.descs[d].anchor.state == PARTIAL ==> held)
            && (s.descs[d].free ==> !held && s.descs[d].anchor.state == EMPTY)
  {
    assert DescOk(s, o, d);
    TokensKnown(s, o);
    if o.tok[d].With? {
      assert HasToken(Th(s, o.tok[d].t).pc, d);
    }
  }

  predicate InService(s: State, d: nat) {
    d in s.descs && !s.descs[d].free
  }

  function Taken(ls: seq<Label>, d: nat): nat {
    if ls == [] then 0
    else (if ls[0].NewSb? && ls[0].d == d then 1 else 0) + Taken(ls[1..], d)
  }

  function Retired(s: State, ls: seq<Label>, d: nat): nat
    requires CanRun(s, ls)
    decreases |ls|
  {
    if ls == [] then 0
    else (if ls[0].Retire? && Th(s, ls[0].t).pc.d == d then 1 else 0) + Retired(Step(s, ls[0]), ls[1..], d)
  }

  /** One step changes whether a descriptor is in service only by taking or retiring it. */
  lemma ServiceStep(s: State, l: Label, d: nat)
    requires Inv(s) && Enabled(s, l)
    ensures (if InService(s, d) then 1 else 0) + (if l.NewSb? && l.d == d then 1 else 0)
            == (if l.Retire? && Th(s, l.t).pc.d == d then 1 else 0)
               + (if InService(Step(s, l), d) then 1 else 0)
  {
    if l.Retire? {
      RetiresInService(s, l.t);
    }
    ServiceCount(s, l, d);
  }

  lemma RetiresInService(s: State, t: nat)
    requires Inv(s) && Enabled(s, Retire(t))
    ensures InService(s, Th(s, t).pc.d)
  {
    var o :| Good(s, o);
    var d := Th(s, t).pc.d;
    assert ThreadOk(s, o, t) && HasToken(Th(s, t).pc, d) && DescOk(s, o, d);
  }

  lemma ServiceCount(s: State, l: Label, d: nat)
    requires Enabled(s, l) && (l.Retire? ==> InService(s, Th(s, l.t).pc.d))
    ensures (if InService(s, d) then 1 else 0) + (if l.NewSb? && l.d == d then 1 else 0)
            == (if l.Retire? && Th(s, l.t).pc.d == d then 1 else 0)
               + (if InService(Step(s, l), d) then 1 else 0)
  {}

  /** Conservation: over a run a descriptor is retired once for each time it was taken,
      except for the service it is still in; so never twice for one superblock. */
  lemma {:induction false} RetiredOnce(s: State, ls: seq<Label>, d: nat)
    requires Inv(s) && CanRun(s, ls)
    ensures (if InService(s, d) then 1 else 0) + Taken(ls, d)
            == Retired(s, ls, d) + (if InService(Run(s, ls), d) then 1 else 0)
    decreases |ls|
  {
    if ls != [] {
      ServiceStep(s, ls[0], d);
      StepKeepsInv(s, ls[0]);
      RetiredOnce(Step(s, ls[0]), ls[1..], d);
    }
  }
}
