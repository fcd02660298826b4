/**
  In which order blocks and descriptors come back.  The partial list is a stack, and so is
  every cache; chains and runs keep their order when they change hands.
  */
module ProtocolOrder {
  import opened Chains
  import opened Protocol
  import opened ProtocolInvariant
  import opened ProtocolSafety
  import opened ProtocolUnmap

  // ---- the partial list ------------------------------------------------------------------

  predicate TouchesList(l: Label) {
    l.Push? || l.Pop?
  }

  lemma {:induction false} ListKept(s: State, ls: seq<Label>)
    requires CanRun(s, ls) && forall i | 0 <= i < |ls| :: !TouchesList(ls[i])
    ensures Run(s, ls).partials == s.partials
    decreases |ls|
  {
    if ls != [] {
      OthersKeepList(s, ls[0]);
      ListKept(Step(s, ls[0]), ls[1..]);
    }
  }

  lemma OthersKeepList(s: State, l: Label)
    requires Enabled(s, l) && !TouchesList(l)
    ensures Step(s, l).partials == s.partials
  {}

  /** What was pushed last is popped first: after a push of `d` and any steps that are no push
      or pop, a pop gives `d` and leaves the list as it was before the push. */
  lemma LastInFirstOut(s: State, t: nat, ls: seq<Label>, u: nat)
    requires Enabled(s, Push(t)) && CanRun(Step(s, Push(t)), ls) && forall i | 0 <= i < |ls| :: !TouchesList(ls[i])
    requires Enabled(Run(Step(s, Push(t)), ls), Pop(u))
    ensures var s' := Step(Run(Step(s, Push(t)), ls), Pop(u));
            Th(s', u).pc == Popped(Th(s, t).pc.d) && s'.partials == s.partials
  {
    ListKept(Step(s, Push(t)), ls);
    var list := [Th(s, t).pc.d] + s.partials;
    assert list[0] == Th(s, t).pc.d && list[1..] == s.partials;
  }

  /** The last step of a run, after the steps before it. */
  lemma {:induction false} LastStep(s: State, ls: seq<Label>)
    requires CanRun(s, ls) && ls != []
    ensures var before, last := ls[..|ls| - 1], ls[|ls| - 1];
            CanRun(s, before) && Enabled(Run(s, before), last) && Run(s, ls) == Step(Run(s, before), last)
    decreases |ls|
  {
    if |ls| == 1 {
      assert ls[1..] == [] && ls[..0] == [];
    } else {
      LastStep(Step(s, ls[0]), ls[1..]);
      var before := ls[..|ls| - 1];
      assert before[1..] == ls[1..][..|ls[1..]| - 1] && before[0] == ls[0];
    }
  }

  /** When `d` was last pushed in the run, as an index into it, or -1. */
  function LastPush(s: State, ls: seq<Label>, d: nat): (i: int)
    requires CanRun(s, ls)
    ensures -1 <= i < |ls|
    decreases |ls|
  {
    if ls == [] then -1
    else
      LastStep(s, ls);
      var before, last := ls[..|ls| - 1], ls[|ls| - 1];
      if last.Push? && Th(Run(s, before), last.t).pc.d == d then |ls| - 1 else LastPush(s, before, d)
  }

  /** Newer pushes stand before older ones. */
  ghost predicate NewestFirst(s: State, ls: seq<Label>)
    requires CanRun(s, ls)
  {
    var list := Run(s, ls).partials;
    && (forall i | 0 <= i < |list| :: LastPush(s, ls, list[i]) >= 0)
    && (forall i, j | 0 <= i < j < |list| :: LastPush(s, ls, list[i]) > LastPush(s, ls, list[j]))
  }

  lemma {:induction false} ListOrdered(max: Pos, ls: seq<Label>)
    requires CanRun(Init(max), ls)
    ensures NewestFirst(Init(max), ls)
    decreases |ls|
  {
    if ls != [] {
      var before, last := ls[..|ls| - 1], ls[|ls| - 1];
      LastStep(Init(max), ls);
      ListOrdered(max, before);
      if last.Push? {
        PushOrdered(max, ls);
      } else {
        NotPushOrdered(max, ls);
      }
    }
  }

  lemma NotPushOrdered(max: Pos, ls: seq<Label>)
    requires CanRun(Init(max), ls) && ls != [] && !ls[|ls| - 1].Push?
    requires CanRun(Init(max), ls[..|ls| - 1]) && NewestFirst(Init(max), ls[..|ls| - 1])
    ensures NewestFirst(Init(max), ls)
  {
    var s, before, last := Init(max), ls[..|ls| - 1], ls[|ls| - 1];
    LastStep(s, ls);
    var list, list' := Run(s, before).partials, Run(s, ls).partials;
    assert forall d :: LastPush(s, ls, d) == LastPush(s, before, d);
    if last.Pop? {
      assert list' == list[1..];
    } else {
      OthersKeepList(Run(s, before), last);
    }
  }

  lemma PushOrdered(max: Pos, ls: seq<Label>)
    requires CanRun(Init(max), ls) && ls != [] && ls[|ls| - 1].Push?
    requires CanRun(Init(max), ls[..|ls| - 1]) && NewestFirst(Init(max), ls[..|ls| - 1])
    ensures NewestFirst(Init(max), ls)
  {
    var before, last := ls[..|ls| - 1], ls[|ls| - 1];
    LastStep(Init(max), ls);
    InitGood(max);
    RunKeepsInv(Init(max), before);
    PushedIsUnlisted(Run(Init(max), before), last.t);
    UnlistedOnTop(Init(max), ls);
  }

  lemma UnlistedOnTop(s: State, ls: seq<Label>)
    requires CanRun(s, ls) && ls != [] && ls[|ls| - 1].Push?
    requires var before := ls[..|ls| - 1];
             && CanRun(s, before) && NewestFirst(s, before)
             && Th(Run(s, before), ls[|ls| - 1].t).pc.Pushing?
             && Th(Run(s, before), ls[|ls| - 1].t).pc.d !in Run(s, before).partials
    ensures NewestFirst(s, ls)
  {
    var before, last := ls[..|ls| - 1], ls[|ls| - 1];
    LastStep(s, ls);
    var d, list := Th(Run(s, before), last.t).pc.d, Run(s, before).partials;
    assert Run(s, ls).partials == [d] + list;
    assert LastPush(s, ls, d) == |ls| - 1;
    forall i | 0 <= i < |list| ensures LastPush(s, ls, list[i]) == LastPush(s, before, list[i]) {
      assert list[i] in list;
    }
  }

  lemma PushedIsUnlisted(s: State, t: nat)
    requires Inv(s) && Enabled(s, Push(t))
    ensures Th(s, t).pc.d !in s.partials
  {
    InvOneToken(s);
    assert HasToken(Th(s, t).pc, Th(s, t).pc.d);
  }

  /** A pop gives, of all descriptors still listed, the one that was pushed last. */
  lemma PopsNewest(max: Pos, ls: seq<Label>, u: nat)
    requires CanRun(Init(max), ls) && Enabled(Run(Init(max), ls), Pop(u))
    ensures var s, s' := Run(Init(max), ls), Step(Run(Init(max), ls), Pop(u));
            && Th(s', u).pc.Popped? && Th(s', u).pc.d in s.partials
            && forall e | e in s'.partials :: LastPush(Init(max), ls, e) < LastPush(Init(max), ls, Th(s', u).pc.d)
  {
    ListOrdered(max, ls);
    var list := Run(Init(max), ls).partials;
    forall e | e in list[1..] ensures LastPush(Init(max), ls, e) < LastPush(Init(max), ls, list[0]) {
      var i :| 0 <= i < |list| - 1 && list[1..][i] == e;
      assert e == list[i + 1];
    }
  }

  // ---- caches, runs and chains ------------------------------------------------------------

  /** An allocation takes the top of the cache. */
  lemma MallocTakesTop(s: State, t: nat)
    requires Enabled(s, Malloc(t))
    ensures var s' := Step(s, Malloc(t));
            CacheOf(s, t) == [Th(s, t).head.block] + CacheOf(s', t) && s'.used == s.used + {Th(s, t).head.block}
  {
    var th, s' := Th(s, t), Step(s, Malloc(t));
    assert Th(s', t).head == Next(s.link, th.head.block) && Th(s', t).num == th.num - 1 && s'.link == s.link;
  }

  /** A free puts its block on top. */
  lemma FreeGoesOnTop(s: State, t: nat, b: Block)
    requires Inv(s) && Enabled(s, Free(t, b))
    ensures CacheOf(Step(s, Free(t, b)), t) == [b] + CacheOf(s, t)
  {
    var o :| Good(s, o);
    FreeLeavesCache(s, o, t, b);
  }

  lemma FreeLeavesCache(s: State, o: Owners, t: nat, b: Block)
    requires Good(s, o) && Enabled(s, Free(t, b))
    ensures CacheOf(Step(s, Free(t, b)), t) == [b] + CacheOf(s, t)
  {
    assert ThreadOk(s, o, t) && Held(o.h, b, User);
    ExactlyFrame(s.link, s.link[b := Th(s, t).head], o.h, o.h, Th(s, t).head, Th(s, t).num, Cache(t));
  }

  /** A new superblock fills the cache with its blocks, lowest index on top. */
  lemma NewSbInOrder(s: State, t: nat, d: nat, i: nat)
    requires Enabled(s, NewSb(t, d)) && i < s.max
    ensures var cache := CacheOf(Step(s, NewSb(t, d)), t); |cache| == s.max && cache[i] == Block(d, i)
  {
    NewSbFresh(s, t, d);
    FreshInOrder(Step(s, NewSb(t, d)).link, d, 0, s.max, i);
  }

  lemma {:induction false} FreshInOrder(link: Links, d: nat, k: nat, max: nat, i: nat)
    requires k <= max && forall j | 0 <= j < max :: Next(link, Block(d, j)) == FreshNext(Block(d, j), max)
    requires i < max - k
    ensures var w := Walk(link, To(Block(d, k)), max - k); |w| == max - k && w[i] == Block(d, k + i)
    decreases max - k
  {
    if k + 1 < max {
      FreshInOrder(link, d, k + 1, max, if i == 0 then 0 else i - 1);
    }
  }

  /** A flush takes the run off the top of the cache; both parts keep their order. */
  lemma FlushTakesTop(s: State, t: nat)
    requires Inv(s) && Enabled(s, FlushBegin(t))
    ensures var s' := Step(s, FlushBegin(t)); CacheOf(s, t) == FlightOf(s', t) + CacheOf(s', t)
  {
    var o :| Good(s, o);
    CacheLength(s, o, t);
    RunLeavesCache(s, t);
  }

  lemma RunLeavesCache(s: State, t: nat)
    requires Enabled(s, FlushBegin(t)) && |CacheOf(s, t)| == Th(s, t).num
    ensures var s' := Step(s, FlushBegin(t)); CacheOf(s, t) == FlightOf(s', t) + CacheOf(s', t)
  {
    var th, s' := Th(s, t), Step(s, FlushBegin(t));
    var w, k := CacheOf(s, t), RunLength(s, th.head, th.num, th.head.block.desc);
    RunIsPrefix(s, th.head, th.num, th.head.block.desc);
    WalkSplit(s.link, th.head, th.num, k);
    assert s'.link == s.link && Th(s', t).head == Next(s.link, w[k - 1]) && Th(s', t).num == th.num - k;
    assert RunPtr(Th(s', t).pc) == th.head && RunNum(Th(s', t).pc) == k;
    assert FlightOf(s', t) == w[..k] && CacheOf(s', t) == w[k..];
  }

  lemma CacheLength(s: State, o: Owners, t: nat)
    requires Good(s, o)
    ensures |CacheOf(s, t)| == Th(s, t).num
  {
    assert ThreadOk(s, o, t);
  }

  /** The run a flush returns becomes the counted chain, in its order. */
  lemma FlushedIsChain(s: State, t: nat)
    requires Inv(s) && Enabled(s, FlushCas(t))
    requires Step(s, FlushCas(t)).descs[Th(s, t).pc.d].anchor.state != EMPTY
    ensures ChainOf(Step(s, FlushCas(t)), Th(s, t).pc.d) == FlightOf(s, t)
    ensures Step(s, FlushCas(t)).descs[Th(s, t).pc.d].anchor == Anchor(PARTIAL, Th(s, t).pc.first.idx, Th(s, t).pc.n)
  {
    var o :| Good(s, o);
    FlushTarget(s, o, t);
    assert Th(s, t).pc.first == Block(Th(s, t).pc.d, Th(s, t).pc.first.idx);
  }

  /** A reservation makes the counted chain the cache, in its order. */
  lemma ReservedIsCache(s: State, t: nat)
    requires Enabled(s, Reserve(t))
    ensures CacheOf(Step(s, Reserve(t)), t) == ChainOf(s, Th(s, t).pc.d)
  {}
}
