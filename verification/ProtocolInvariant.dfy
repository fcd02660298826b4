/**
  Who holds each block and each descriptor in every reachable state.  The owner maps are
  existential: they are proof-only bookkeeping and no step reads them.
  */
module ProtocolInvariant {
  import opened Chains
  import opened Protocol

  /** `Dropped` blocks fell off the chain when a flush overwrote the anchor's count;
      `Gone` blocks belong to a superblock whose anchor is EMPTY. */
  datatype Holder = User | Cache(t: nat) | Flight(t: nat) | Chain(d: nat) | Dropped | Gone

  /** Where a descriptor's one list token is. */
  datatype Token = Nowhere | Listed | With(t: nat)

  datatype Owners = Owners(h: map<Block, Holder>, tok: map<nat, Token>)

  ghost predicate Held(h: map<Block, Holder>, b: Block, who: Holder) {
    b in h && h[b] == who
  }

  /** `n` links from `p` meet `n` distinct blocks, exactly those `who` holds. */
  ghost predicate Exactly(link: Links, h: map<Block, Holder>, p: Ptr, n: nat, who: Holder) {
    var w := Walk(link, p, n);
    |w| == n && Distinct(w) && forall b :: b in w <==> Held(h, b, who)
  }

  /** Held by a user, a cache or a flushing thread. */
  predicate Live(who: Holder) {
    who.User? || who.Cache? || who.Flight?
  }

  function RunPtr(pc: Pc): Ptr {
    if pc.Flushing? || pc.Linked? then To(pc.first) else Null
  }

  function RunNum(pc: Pc): nat {
    if pc.Flushing? || pc.Linked? then pc.n else 0
  }

  predicate HasToken(pc: Pc, d: nat) {
    (pc.Pushing? || pc.Popped? || pc.Reserving?) && pc.d == d
  }

  ghost predicate PcOk(s: State, o: Owners, t: nat, pc: Pc) {
    match pc
    case Flushing(d, first, tail, n) => RunOk(s, o, t, pc)
    case Linked(d, first, tail, n, seen) => RunOk(s, o, t, pc)
    case Reserving(d, seen) =>
      d in s.descs && seen.state != FULL && (seen.state == EMPTY ==> s.descs[d].anchor.state == EMPTY)
    case Unmapping(d, life) =>
      d in s.descs && life <= s.descs[d].life
      && (life == s.descs[d].life ==> s.descs[d].anchor.state == EMPTY)
    case _ => true
  }

  ghost predicate RunOk(s: State, o: Owners, t: nat, pc: Pc)
    requires pc.Flushing? || pc.Linked?
  {
    && pc.n > 0 && pc.d in s.descs
    && (forall b :: Held(o.h, b, Flight(t)) ==> b.desc == pc.d)
    && var w := Walk(s.link, To(pc.first), pc.n);
       |w| == pc.n && w[pc.n - 1] == pc.tail
  }

  ghost predicate ThreadOk(s: State, o: Owners, t: nat) {
    var th := Th(s, t);
    && Exactly(s.link, o.h, th.head, th.num, Cache(t))
    && Exactly(s.link, o.h, RunPtr(th.pc), RunNum(th.pc), Flight(t))
    && (forall d :: (d in o.tok && o.tok[d] == With(t)) <==> HasToken(th.pc, d))
    && PcOk(s, o, t, th.pc)
    && (th.pc.Popped? || th.pc.Reserving? ==> th.num == 0)
  }

  ghost predicate DescOk(s: State, o: Owners, d: nat)
    requires d in s.descs
  {
    var a := s.descs[d].anchor;
    && d in o.tok
    && (s.descs[d].free ==> a.state == EMPTY && o.tok[d] == Nowhere)
    && match a.state
       case FULL =>
         && a == Anchor(FULL, s.max, 0) && o.tok[d] == Nowhere
         && (forall b :: !Held(o.h, b, Chain(d)))
         && exists b :: b in o.h && b.desc == d && Live(o.h[b])
       case PARTIAL =>
         && a.count > 0 && o.tok[d] != Nowhere
         && Exactly(s.link, o.h, To(Block(d, a.avail)), a.count, Chain(d))
       case EMPTY =>
         forall b | b in o.h && b.desc == d :: o.h[b] == Gone
  }

  /** Every block and every descriptor is on the books, users and the list included. */
  ghost predicate Accounts(s: State, o: Owners) {
    && (forall b :: b in o.h <==> b.desc in s.descs && b.idx < s.max)
    && (forall b | b in o.h && o.h[b].Chain? :: b.desc == o.h[b].d)
    && (forall b | b in o.h && o.h[b] == Gone :: b.desc in s.descs && s.descs[b.desc].anchor.state == EMPTY)
    && (forall b :: b in s.used <==> Held(o.h, b, User))
    && (forall d :: d in o.tok <==> d in s.descs)
    && (forall i, j | 0 <= i < j < |s.partials| :: s.partials[i] != s.partials[j])
    && (forall d :: d in s.partials <==> (d in o.tok && o.tok[d] == Listed))
  }

  ghost predicate Good(s: State, o: Owners) {
    && Accounts(s, o)
    && (forall t :: ThreadOk(s, o, t))
    && (forall d | d in s.descs :: DescOk(s, o, d))
  }

  /** What fell off a chain stays off. */
  ghost predicate KeepsDropped(o: Owners, o': Owners) {
    forall b | Held(o.h, b, Dropped) :: Held(o'.h, b, Dropped)
  }

  ghost predicate Inv(s: State) {
    exists o :: Good(s, o)
  }

  ghost predicate SameHeld(h: map<Block, Holder>, h': map<Block, Holder>, who: Holder) {
    forall b :: Held(h', b, who) <==> Held(h, b, who)
  }

  ghost predicate LinksKept(link: Links, link': Links, h: map<Block, Holder>, who: Holder) {
    forall b | Held(h, b, who) :: Next(link', b) == Next(link, b)
  }

  /** A holder keeps its chain when its own blocks and their links do not change. */
  lemma ExactlyFrame(link: Links, link': Links, h: map<Block, Holder>, h': map<Block, Holder>,
                     p: Ptr, n: nat, who: Holder)
    requires Exactly(link, h, p, n, who)
    requires LinksKept(link, link', h, who) && SameHeld(h, h', who)
    ensures Walk(link', p, n) == Walk(link, p, n)
    ensures Exactly(link', h', p, n, who)
  {
    var w := Walk(link, p, n);
    forall i | 0 <= i < |w| && i < n - 1 ensures Next(link', w[i]) == Next(link, w[i]) {
      assert w[i] in w;
      assert Held(h, w[i], who);
    }
    WalkFrame(link, link', p, n);
  }

  ghost predicate SameToken(o: Owners, o': Owners, t: nat) {
    forall d :: (d in o'.tok && o'.tok[d] == With(t)) <==> (d in o.tok && o.tok[d] == With(t))
  }

  /** Descriptors only move forward: an EMPTY one stays so until its next life. */
  ghost predicate Advances(s: State, s': State) {
    forall d | d in s.descs ::
      && d in s'.descs && s.descs[d].life <= s'.descs[d].life
      && (s.descs[d].life == s'.descs[d].life && s.descs[d].anchor.state == EMPTY
          ==> s'.descs[d].anchor.state == EMPTY)
  }

  /** A thread that does not step stays well-formed if its blocks and tokens are left alone. */
  lemma ThreadFrame(s: State, o: Owners, s': State, o': Owners, u: nat)
    requires ThreadOk(s, o, u) && Th(s', u) == Th(s, u) && Advances(s, s')
    requires SameHeld(o.h, o'.h, Cache(u)) && LinksKept(s.link, s'.link, o.h, Cache(u))
    requires SameHeld(o.h, o'.h, Flight(u)) && LinksKept(s.link, s'.link, o.h, Flight(u))
    requires SameToken(o, o', u)
    requires forall d | d in s.descs && HasToken(Th(s, u).pc, d) :: s'.descs[d].life == s.descs[d].life
    ensures ThreadOk(s', o', u)
  {
    var th := Th(s, u);
    ExactlyFrame(s.link, s'.link, o.h, o'.h, th.head, th.num, Cache(u));
    ExactlyFrame(s.link, s'.link, o.h, o'.h, RunPtr(th.pc), RunNum(th.pc), Flight(u));
  }

  /** Live blocks stay live and gone blocks stay gone. */
  ghost predicate Moves(h: map<Block, Holder>, h': map<Block, Holder>) {
    h'.Keys == h.Keys && forall b | b in h :: (Live(h[b]) ==> Live(h'[b])) && (h[b] == Gone ==> h'[b] == Gone)
  }

  /** A descriptor whose anchor and token do not change stays well-formed if its chain is
      left alone. */
  lemma DescFrame(s: State, o: Owners, s': State, o': Owners, d: nat)
    requires d in s.descs && DescOk(s, o, d) && d in s'.descs && s'.max == s.max
    requires s'.descs[d].anchor == s.descs[d].anchor && s'.descs[d].free == s.descs[d].free
    requires d in o'.tok && o'.tok[d] == o.tok[d]
    requires SameHeld(o.h, o'.h, Chain(d)) && LinksKept(s.link, s'.link, o.h, Chain(d))
    requires Moves(o.h, o'.h)
    ensures DescOk(s', o', d)
  {
    var a := s.descs[d].anchor;
    if a.state == PARTIAL {
      ExactlyFrame(s.link, s'.link, o.h, o'.h, To(Block(d, a.avail)), a.count, Chain(d));
    } else if a.state == FULL {
      var b :| b in o.h && b.desc == d && Live(o.h[b]);
      assert b in o'.h && Live(o'.h[b]);
    }
  }

  lemma InitGood(max: Pos)
    ensures Inv(Init(max))
  {
    var o := Owners(map[], map[]);
    forall t ensures ThreadOk(Init(max), o, t) {}
    assert Good(Init(max), o);
  }

  // Steps that touch only blocks in the hands of thread `t` or of users

  predicate Mine(who: Holder, t: nat) {
    who == User || who == Cache(t) || who == Flight(t)
  }

  ghost predicate LocalMove(s: State, o: Owners, s': State, o': Owners, t: nat) {
    && s'.max == s.max && s'.descs == s.descs && s'.partials == s.partials && o'.tok == o.tok
    && (forall u | u != t :: Th(s', u) == Th(s, u))
    && o'.h.Keys == o.h.Keys
    && (forall b | b in o.h :: if Mine(o.h[b], t) then Mine(o'.h[b], t)
                               else o'.h[b] == o.h[b] && Next(s'.link, b) == Next(s.link, b))
  }

  lemma LocalAccounts(s: State, o: Owners, s': State, o': Owners, t: nat)
    requires Accounts(s, o) && LocalMove(s, o, s', o', t)
    requires forall b :: b in s'.used <==> Held(o'.h, b, User)
    ensures Accounts(s', o') && SameHeld(o.h, o'.h, Dropped)
  {}

  lemma LocalStep(s: State, o: Owners, s': State, o': Owners, t: nat)
    requires Good(s, o) && LocalMove(s, o, s', o', t)
    requires forall b :: b in s'.used <==> Held(o'.h, b, User)
    requires ThreadOk(s', o', t)
    ensures Good(s', o') && SameHeld(o.h, o'.h, Dropped)
  {
    LocalAccounts(s, o, s', o', t);
    forall u ensures ThreadOk(s', o', u) {
      if u != t {
        LocalOther(s, o, s', o', t, u);
      }
    }
    forall d | d in s'.descs ensures DescOk(s', o', d) {
      LocalDesc(s, o, s', o', t, d);
    }
  }

  lemma LocalDesc(s: State, o: Owners, s': State, o': Owners, t: nat, d: nat)
    requires d in s.descs && DescOk(s, o, d) && LocalMove(s, o, s', o', t)
    ensures DescOk(s', o', d)
  {
    DescFrame(s, o, s', o', d);
  }

  lemma LocalOther(s: State, o: Owners, s': State, o': Owners, t: nat, u: nat)
    requires ThreadOk(s, o, u) && LocalMove(s, o, s', o', t) && u != t
    ensures ThreadOk(s', o', u)
  {
    ThreadFrame(s, o, s', o', u);
  }

  lemma MallocGood(s: State, o: Owners, t: nat) returns (o': Owners)
    requires Good(s, o) && Enabled(s, Malloc(t))
    ensures Good(Step(s, Malloc(t)), o') && SameHeld(o.h, o'.h, Dropped)
  {
    var s' := Step(s, Malloc(t));
    var b := Th(s, t).head.block;
    assert ThreadOk(s, o, t);
    o' := o.(h := o.h[b := User]);
    MallocThread(s, o, t, o');
    LocalStep(s, o, s', o', t);
  }

  lemma MallocThread(s: State, o: Owners, t: nat, o': Owners)
    requires ThreadOk(s, o, t) && Enabled(s, Malloc(t))
    requires o' == o.(h := o.h[Th(s, t).head.block := User])
    ensures Held(o.h, Th(s, t).head.block, Cache(t))
    ensures ThreadOk(Step(s, Malloc(t)), o', t)
  {
    var s' := Step(s, Malloc(t));
    var th := Th(s, t);
    var b := th.head.block;
    WalkSplit(s.link, th.head, th.num, 1);
    var w := Walk(s.link, th.head, th.num);
    assert w[0] == b && Held(o.h, b, Cache(t));
    assert Exactly(s'.link, o'.h, Th(s', t).head, Th(s', t).num, Cache(t)) by {
      var v := Walk(s'.link, Th(s', t).head, Th(s', t).num);
      assert v == w[1..];
      forall c ensures c in v <==> Held(o'.h, c, Cache(t)) {
        assert c in w <==> c == b || c in v;
      }
    }
    ExactlyFrame(s.link, s'.link, o.h, o'.h, RunPtr(th.pc), RunNum(th.pc), Flight(t));
  }

  lemma FreeGood(s: State, o: Owners, t: nat, b: Block) returns (o': Owners)
    requires Good(s, o) && Enabled(s, Free(t, b))
    ensures Good(Step(s, Free(t, b)), o') && SameHeld(o.h, o'.h, Dropped)
  {
    o' := o.(h := o.h[b := Cache(t)]);
    assert ThreadOk(s, o, t) && Held(o.h, b, User);
    FreeThread(s, o, t, b, o');
    FreeMove(s, o, t, b, o');
    LocalStep(s, o, Step(s, Free(t, b)), o', t);
  }

  lemma FreeMove(s: State, o: Owners, t: nat, b: Block, o': Owners)
    requires Enabled(s, Free(t, b)) && Held(o.h, b, User) && o' == o.(h := o.h[b := Cache(t)])
    requires forall c :: c in s.used <==> Held(o.h, c, User)
    ensures LocalMove(s, o, Step(s, Free(t, b)), o', t)
    ensures forall c :: c in Step(s, Free(t, b)).used <==> Held(o'.h, c, User)
  {}

  lemma FreeThread(s: State, o: Owners, t: nat, b: Block, o': Owners)
    requires ThreadOk(s, o, t) && Enabled(s, Free(t, b)) && Held(o.h, b, User)
    requires o' == o.(h := o.h[b := Cache(t)])
    ensures ThreadOk(Step(s, Free(t, b)), o', t)
  {
    var s' := Step(s, Free(t, b));
    var th := Th(s, t);
    ExactlyFrame(s.link, s'.link, o.h, o.h, th.head, th.num, Cache(t));
    var v := Walk(s.link, th.head, th.num);
    var w := Walk(s'.link, To(b), th.num + 1);
    assert w == [b] + v;
    forall c ensures c in w <==> Held(o'.h, c, Cache(t)) {
      assert c in w <==> c == b || c in v;
    }
    forall i, j | 0 <= i < j < |w| ensures w[i] != w[j] {
      assert w[j] == v[j - 1] && v[j - 1] in v;
    }
    ExactlyFrame(s.link, s'.link, o.h, o'.h, RunPtr(th.pc), RunNum(th.pc), Flight(t));
  }

  lemma WriteGood(s: State, o: Owners, b: Block, p: Ptr)
    requires Good(s, o) && Enabled(s, Write(b, p))
    ensures Good(Step(s, Write(b, p)), o)
  {
    var s' := Step(s, Write(b, p));
    assert ThreadOk(s, o, 0) && Held(o.h, b, User);
    WriteMove(s, o, b, p);
    LocalStep(s, o, s', o, 0);
  }

  lemma WriteMove(s: State, o: Owners, b: Block, p: Ptr)
    requires ThreadOk(s, o, 0) && Enabled(s, Write(b, p)) && Held(o.h, b, User)
    ensures LocalMove(s, o, Step(s, Write(b, p)), o, 0) && ThreadOk(Step(s, Write(b, p)), o, 0)
  {
    ThreadFrame(s, o, Step(s, Write(b, p)), o, 0);
  }

  /** `flush_cache` takes the longest prefix of the cache inside one superblock. */
  lemma {:induction false} RunIsPrefix(s: State, p: Ptr, n: nat, d: nat)
    requires |Walk(s.link, p, n)| == n
    ensures var w := Walk(s.link, p, n);
            var k := RunLength(s, p, n, d);
            && (forall i | 0 <= i < k :: w[i].desc == d && w[i].idx < s.max)
            && (k < n ==> w[k].desc != d || w[k].idx >= s.max)
            && (k > 0 ==> RunTail(s, p, n, d) == w[k - 1])
    decreases n
  {
    if n > 0 && InSuperBlock(s, p, d) {
      var w := Walk(s.link, p, n);
      var q := Next(s.link, p.block);
      var v := Walk(s.link, q, n - 1);
      assert w == [p.block] + v;
      RunIsPrefix(s, q, n - 1, d);
      var k := RunLength(s, p, n, d);
      forall i | 0 <= i < k ensures w[i].desc == d && w[i].idx < s.max {
        if i > 0 {
          assert w[i] == v[i - 1];
        }
      }
    }
  }

  ghost function Relabel(h: map<Block, Holder>, bs: seq<Block>, who: Holder): map<Block, Holder> {
    map b | b in h :: if b in bs then who else h[b]
  }

  /** Handing the first `k` blocks of a chain to a holder that had none. */
  lemma ExactlySplit(link: Links, h: map<Block, Holder>, p: Ptr, n: nat, k: nat, who: Holder, taker: Holder)
    requires Exactly(link, h, p, n, who) && 1 <= k <= n && taker != who
    requires forall b :: !Held(h, b, taker)
    ensures var h' := Relabel(h, Walk(link, p, k), taker);
            && Exactly(link, h', p, k, taker)
            && Exactly(link, h', Next(link, Walk(link, p, n)[k - 1]), n - k, who)
            && forall b | b in Walk(link, p, k) :: Held(h, b, who)
  {
    var w := Walk(link, p, n);
    WalkSplit(link, p, n, k);
    var run, rest := w[..k], w[k..];
    assert w == run + rest;
    forall b | b in run ensures b !in rest {
      var i :| 0 <= i < k && w[i] == b;
      assert forall j | k <= j < |w| :: w[j] != b;
    }
    assert forall b :: b in w <==> b in run || b in rest;
    var h' := Relabel(h, Walk(link, p, k), taker);
    forall b ensures b in run <==> Held(h', b, taker) {
      assert b in run ==> Held(h, b, who);
      assert !Held(h, b, taker);
    }
  }

  lemma NoRun(s: State, o: Owners, t: nat)
    requires ThreadOk(s, o, t) && RunNum(Th(s, t).pc) == 0
    ensures forall b :: !Held(o.h, b, Flight(t))
  {
    forall b ensures !Held(o.h, b, Flight(t)) {
      assert b !in Walk(s.link, RunPtr(Th(s, t).pc), 0);
    }
  }

  lemma FlushBeginGood(s: State, o: Owners, t: nat) returns (o': Owners)
    requires Good(s, o) && Enabled(s, FlushBegin(t))
    ensures Good(Step(s, FlushBegin(t)), o') && SameHeld(o.h, o'.h, Dropped)
  {
    assert ThreadOk(s, o, t);
    o' := FlushBeginThread(s, o, t);
    FlushBeginMove(s, o, o', t);
    LocalStep(s, o, Step(s, FlushBegin(t)), o', t);
  }

  lemma FlushBeginThread(s: State, o: Owners, t: nat) returns (o': Owners)
    requires ThreadOk(s, o, t) && Enabled(s, FlushBegin(t))
    ensures o'.tok == o.tok && o'.h.Keys == o.h.Keys
    ensures forall b | b in o.h :: o'.h[b] == o.h[b] || (o.h[b] == Cache(t) && o'.h[b] == Flight(t))
    ensures ThreadOk(Step(s, FlushBegin(t)), o', t)
  {
    var th := Th(s, t);
    var d := th.head.block.desc;
    var k := RunLength(s, th.head, th.num, d);
    var run := Walk(s.link, th.head, k);
    RunIsPrefix(s, th.head, th.num, d);
    WalkSplit(s.link, th.head, th.num, k);
    NoRun(s, o, t);
    ExactlySplit(s.link, o.h, th.head, th.num, k, Cache(t), Flight(t));
    o' := o.(h := Relabel(o.h, run, Flight(t)));
    RunTaken(s, o, o', t, k);
  }

  lemma RunTaken(s: State, o: Owners, o': Owners, t: nat, k: nat)
    requires Enabled(s, FlushBegin(t)) && o'.tok == o.tok
    requires forall d :: (d in o.tok && o.tok[d] == With(t)) <==> HasToken(Idle, d)
    requires Mapped(s, Th(s, t).head.block)
    requires var th := Th(s, t);
             var d := th.head.block.desc;
             var run := Walk(s.link, th.head, k);
             && k == RunLength(s, th.head, th.num, d)
             && Exactly(s.link, o'.h, th.head, k, Flight(t))
             && |run| == k && run[k - 1] == RunTail(s, th.head, th.num, d)
             && Exactly(s.link, o'.h, Next(s.link, run[k - 1]), th.num - k, Cache(t))
             && (forall i | 0 <= i < k :: run[i].desc == d)
    ensures ThreadOk(Step(s, FlushBegin(t)), o', t)
  {
    var run := Walk(s.link, Th(s, t).head, k);
    forall b | Held(o'.h, b, Flight(t)) ensures b.desc == Th(s, t).head.block.desc {
      assert b in run;
    }
  }

  lemma FlushBeginMove(s: State, o: Owners, o': Owners, t: nat)
    requires Enabled(s, FlushBegin(t)) && o'.tok == o.tok && o'.h.Keys == o.h.Keys
    requires forall b | b in o.h :: o'.h[b] == o.h[b] || (o.h[b] == Cache(t) && o'.h[b] == Flight(t))
    requires forall b :: b in s.used <==> Held(o.h, b, User)
    ensures LocalMove(s, o, Step(s, FlushBegin(t)), o', t)
    ensures forall b :: b in Step(s, FlushBegin(t)).used <==> Held(o'.h, b, User)
  {}

  lemma FlushLoadGood(s: State, o: Owners, t: nat)
    requires Good(s, o) && Enabled(s, FlushLoad(t))
    ensures Good(Step(s, FlushLoad(t)), o)
  {
    assert ThreadOk(s, o, t);
    FlushLoadThread(s, o, t);
    LocalStep(s, o, Step(s, FlushLoad(t)), o, t);
  }

  lemma FlushLoadThread(s: State, o: Owners, t: nat)
    requires ThreadOk(s, o, t) && Enabled(s, FlushLoad(t))
    ensures Held(o.h, Th(s, t).pc.tail, Flight(t))
    ensures ThreadOk(Step(s, FlushLoad(t)), o, t)
  {
    var s' := Step(s, FlushLoad(t));
    var th := Th(s, t);
    var pc := th.pc;
    var w := Walk(s.link, To(pc.first), pc.n);
    assert pc.tail in w;
    WalkUpdate(s.link, pc.tail, To(Block(pc.d, s.descs[pc.d].anchor.avail)), To(pc.first), pc.n);
    ExactlyFrame(s.link, s'.link, o.h, o.h, th.head, th.num, Cache(t));
  }

  lemma FlushRetryGood(s: State, o: Owners, t: nat)
    requires Good(s, o) && Enabled(s, FlushRetry(t))
    ensures Good(Step(s, FlushRetry(t)), o)
  {
    assert ThreadOk(s, o, t);
    FlushRetryMove(s, o, t);
    LocalStep(s, o, Step(s, FlushRetry(t)), o, t);
  }

  lemma FlushRetryMove(s: State, o: Owners, t: nat)
    requires ThreadOk(s, o, t) && Enabled(s, FlushRetry(t))
    ensures LocalMove(s, o, Step(s, FlushRetry(t)), o, t) && ThreadOk(Step(s, FlushRetry(t)), o, t)
    ensures Step(s, FlushRetry(t)).used == s.used
  {}

  // Steps on descriptors

  /** What a step of `t` on descriptor `d` leaves alone: the other threads with their blocks
      and tokens, the other descriptors with their chains. */
  ghost predicate DescMove(s: State, o: Owners, s': State, o': Owners, t: nat, d: nat) {
    && s'.max == s.max && d in s'.descs && d in o'.tok
    && (forall e | e != d :: e in s'.descs <==> e in s.descs)
    && (forall e | e != d :: e in o'.tok <==> e in o.tok)
    && (forall e | e in s.descs && e != d ::
         s'.descs[e] == s.descs[e] && (e in o.tok ==> o'.tok[e] == o.tok[e]))
    && (forall u | u != t :: Th(s', u) == Th(s, u) && SameToken(o, o', u))
    && Advances(s, s')
    && (d in s.descs && d in o.tok && o.tok[d].With? && o.tok[d] != With(t)
        ==> s'.descs[d].life == s.descs[d].life)
    && (forall b | b in o.h :: b in o'.h)
    && (forall b | b in o'.h && !(b in o.h && o'.h[b] == o.h[b]) ::
         && b.desc == d
         && (b in o.h ==> o.h[b] == Chain(d) || Mine(o.h[b], t) || o.h[b] == Gone)
         && (o'.h[b] == Chain(d) || Mine(o'.h[b], t) || o'.h[b] == Dropped || o'.h[b] == Gone))
    && (forall b | b in o.h && Next(s'.link, b) != Next(s.link, b) ::
         b.desc == d && (o.h[b] == Gone || Mine(o.h[b], t)))
  }

  lemma DescStep(s: State, o: Owners, s': State, o': Owners, t: nat, d: nat)
    requires Good(s, o) && DescMove(s, o, s', o', t, d) && Accounts(s', o')
    requires ThreadOk(s', o', t) && DescOk(s', o', d)
    ensures Good(s', o')
  {
    forall u ensures ThreadOk(s', o', u) {
      if u != t {
        DescOtherThread(s, o, s', o', t, d, u);
      }
    }
    forall e | e in s'.descs ensures DescOk(s', o', e) {
      if e != d {
        DescOtherDesc(s, o, s', o', t, d, e);
      }
    }
  }

  lemma DescOtherThread(s: State, o: Owners, s': State, o': Owners, t: nat, d: nat, u: nat)
    requires ThreadOk(s, o, u) && DescMove(s, o, s', o', t, d) && u != t
    ensures ThreadOk(s', o', u)
  {
    DescLeaves(s, o, s', o', t, d, Cache(u));
    DescLeaves(s, o, s', o', t, d, Flight(u));
    DescKeepsLife(s, o, s', o', t, d, u);
    ThreadFrame(s, o, s', o', u);
  }

  /** Another thread's blocks and their links are not touched. */
  lemma DescLeaves(s: State, o: Owners, s': State, o': Owners, t: nat, d: nat, who: Holder)
    requires DescMove(s, o, s', o', t, d) && (who.Cache? || who.Flight?) && who.t != t
    ensures SameHeld(o.h, o'.h, who) && LinksKept(s.link, s'.link, o.h, who)
  {}

  lemma DescKeepsLife(s: State, o: Owners, s': State, o': Owners, t: nat, d: nat, u: nat)
    requires ThreadOk(s, o, u) && DescMove(s, o, s', o', t, d) && u != t
    ensures forall e | e in s.descs && HasToken(Th(s, u).pc, e) :: s'.descs[e].life == s.descs[e].life
  {}

  lemma DescOtherDesc(s: State, o: Owners, s': State, o': Owners, t: nat, d: nat, e: nat)
    requires e in s.descs && DescOk(s, o, e) && DescMove(s, o, s', o', t, d) && e != d
    ensures DescOk(s', o', e)
  {
    var a := s.descs[e].anchor;
    if a.state == PARTIAL {
      ExactlyFrame(s.link, s'.link, o.h, o'.h, To(Block(e, a.avail)), a.count, Chain(e));
    } else if a.state == FULL {
      var b :| b in o.h && b.desc == e && Live(o.h[b]);
      assert b in o'.h && o'.h[b] == o.h[b];
      forall c ensures !Held(o'.h, c, Chain(e)) {
        assert !Held(o.h, c, Chain(e));
      }
    }
  }

  /** A step of `t` that only moves descriptor `d`'s token, changes its `free` or `mapped`
      flag and moves on. */
  lemma TokenAccounts(s: State, o: Owners, s': State, o': Owners, d: nat, x: Token)
    requires Accounts(s, o) && d in s.descs && s'.max == s.max && s'.used == s.used && s'.descs.Keys == s.descs.Keys
    requires forall e | e in s.descs :: s'.descs[e].anchor == s.descs[e].anchor
    requires o' == o.(tok := o.tok[d := x])
    requires forall i, j | 0 <= i < j < |s'.partials| :: s'.partials[i] != s'.partials[j]
    requires forall e :: e in s'.partials <==> if e == d then x == Listed else e in s.partials
    ensures Accounts(s', o')
  {}

  lemma TokenStep(s: State, o: Owners, s': State, t: nat, d: nat, x: Token) returns (o': Owners)
    requires Good(s, o) && d in s.descs && s'.max == s.max && s'.link == s.link && s'.used == s.used
    requires forall u | u != t :: Th(s', u) == Th(s, u)
    requires Th(s', t).head == Th(s, t).head && Th(s', t).num == Th(s, t).num
    requires RunNum(Th(s, t).pc) == 0 && RunNum(Th(s', t).pc) == 0 && PcOk(s', o, t, Th(s', t).pc)
    requires Th(s', t).pc.Popped? || Th(s', t).pc.Reserving? ==> Th(s', t).num == 0
    requires forall e | e != d :: HasToken(Th(s', t).pc, e) == HasToken(Th(s, t).pc, e)
    requires x == With(t) <==> HasToken(Th(s', t).pc, d)
    requires d in o.tok && (x == o.tok[d] || ((x == With(t) || !x.With?) && (o.tok[d] == With(t) || !o.tok[d].With?)))
    requires forall i, j | 0 <= i < j < |s'.partials| :: s'.partials[i] != s'.partials[j]
    requires forall e :: e in s'.partials <==> if e == d then x == Listed else e in s.partials
    requires exists mapped, free :: s'.descs == s.descs[d := s.descs[d].(mapped := mapped, free := free)]
    requires s'.descs[d].free ==> s'.descs[d].anchor.state == EMPTY && x == Nowhere
    requires s'.descs[d].anchor.state != EMPTY ==> (x == Nowhere <==> o.tok[d] == Nowhere)
    ensures o' == o.(tok := o.tok[d := x]) && Good(s', o')
  {
    o' := o.(tok := o.tok[d := x]);
    assert ThreadOk(s, o, t) && DescOk(s, o, d);
    TokenThread(s, o, s', t, d, x);
    TokenMove(s, o, s', t, d, x);
    TokenAccounts(s, o, s', o', d, x);
    DescStep(s, o, s', o', t, d);
  }

  lemma TokenThread(s: State, o: Owners, s': State, t: nat, d: nat, x: Token)
    requires ThreadOk(s, o, t) && s'.link == s.link
    requires Th(s', t).head == Th(s, t).head && Th(s', t).num == Th(s, t).num
    requires RunNum(Th(s, t).pc) == 0 && RunNum(Th(s', t).pc) == 0 && PcOk(s', o, t, Th(s', t).pc)
    requires Th(s', t).pc.Popped? || Th(s', t).pc.Reserving? ==> Th(s', t).num == 0
    requires forall e | e != d :: HasToken(Th(s', t).pc, e) == HasToken(Th(s, t).pc, e)
    requires x == With(t) <==> HasToken(Th(s', t).pc, d)
    ensures ThreadOk(s', o.(tok := o.tok[d := x]), t)
  {
    NoRun(s, o, t);
  }

  lemma TokenMove(s: State, o: Owners, s': State, t: nat, d: nat, x: Token)
    requires d in s.descs && s'.max == s.max && s'.link == s.link
    requires forall u | u != t :: Th(s', u) == Th(s, u)
    requires d in o.tok && (x == o.tok[d] || ((x == With(t) || !x.With?) && (o.tok[d] == With(t) || !o.tok[d].With?)))
    requires exists mapped, free :: s'.descs == s.descs[d := s.descs[d].(mapped := mapped, free := free)]
    ensures DescMove(s, o, s', o.(tok := o.tok[d := x]), t, d)
  {
    var mapped, free :| s'.descs == s.descs[d := s.descs[d].(mapped := mapped, free := free)];
  }

  lemma PushGood(s: State, o: Owners, t: nat) returns (o': Owners)
    requires Good(s, o) && Enabled(s, Push(t))
    ensures Good(Step(s, Push(t)), o') && SameHeld(o.h, o'.h, Dropped)
  {
    var s' := Step(s, Push(t));
    var d := Th(s, t).pc.d;
    assert ThreadOk(s, o, t) && HasToken(Th(s, t).pc, d);
    SameDesc(s, d);
    o' := TokenStep(s, o, s', t, d, Listed);
  }

  lemma SameDesc(s: State, d: nat)
    requires d in s.descs
    ensures s.descs == s.descs[d := s.descs[d].(mapped := s.descs[d].mapped, free := s.descs[d].free)]
  {}

  lemma PopGood(s: State, o: Owners, t: nat) returns (o': Owners)
    requires Good(s, o) && Enabled(s, Pop(t))
    ensures Good(Step(s, Pop(t)), o') && SameHeld(o.h, o'.h, Dropped)
  {
    var s' := Step(s, Pop(t));
    var d := s.partials[0];
    assert d in s.partials;
    assert DescOk(s, o, d);
    SameDesc(s, d);
    forall e ensures e in s'.partials <==> if e == d then false else e in s.partials {
      assert e in s.partials <==> e == d || e in s'.partials;
    }
    o' := TokenStep(s, o, s', t, d, With(t));
  }

  lemma LoadGood(s: State, o: Owners, t: nat)
    requires Good(s, o) && Enabled(s, Load(t))
    ensures Good(Step(s, Load(t)), o)
  {
    var s' := Step(s, Load(t));
    var d := Th(s, t).pc.d;
    assert ThreadOk(s, o, t) && HasToken(Th(s, t).pc, d) && DescOk(s, o, d);
    LocalStep(s, o, s', o, t);
  }

  lemma RetireGood(s: State, o: Owners, t: nat) returns (o': Owners)
    requires Good(s, o) && Enabled(s, Retire(t))
    ensures Good(Step(s, Retire(t)), o') && SameHeld(o.h, o'.h, Dropped)
  {
    var d := Th(s, t).pc.d;
    assert ThreadOk(s, o, t) && HasToken(Th(s, t).pc, d);
    var s' := Step(s, Retire(t));
    assert s'.descs == s.descs[d := s.descs[d].(mapped := s.descs[d].mapped, free := true)];
    o' := TokenStep(s, o, s', t, d, Nowhere);
  }

  lemma UnmapGood(s: State, o: Owners, t: nat) returns (o': Owners)
    requires Good(s, o) && Enabled(s, Unmap(t))
    ensures Good(Step(s, Unmap(t)), o') && SameHeld(o.h, o'.h, Dropped)
  {
    var s' := Step(s, Unmap(t));
    var d := Th(s, t).pc.d;
    assert ThreadOk(s, o, t) && DescOk(s, o, d);
    assert s'.descs == s.descs[d := s.descs[d].(mapped := false, free := s.descs[d].free)];
    o' := TokenStep(s, o, s', t, d, o.tok[d]);
  }

  lemma NoCache(s: State, o: Owners, t: nat)
    requires ThreadOk(s, o, t) && Th(s, t).num == 0
    ensures forall b :: !Held(o.h, b, Cache(t))
  {
    forall b ensures !Held(o.h, b, Cache(t)) {
      assert b !in Walk(s.link, Th(s, t).head, 0);
    }
  }

  lemma ReserveGood(s: State, o: Owners, t: nat) returns (o': Owners)
    requires Good(s, o) && Enabled(s, Reserve(t))
    ensures Good(Step(s, Reserve(t)), o') && SameHeld(o.h, o'.h, Dropped)
  {
    var d := Th(s, t).pc.d;
    assert ThreadOk(s, o, t) && DescOk(s, o, d) && HasToken(Th(s, t).pc, d);
    o' := ReserveItems(s, o, t);
    ReserveMove(s, o, t, o');
    ReserveAccounts(s, o, t, o');
    DescStep(s, o, Step(s, Reserve(t)), o', t, d);
  }

  lemma ReserveAccounts(s: State, o: Owners, t: nat, o': Owners)
    requires Accounts(s, o) && Enabled(s, Reserve(t))
    requires var d := Th(s, t).pc.d;
             && d in o.tok && o.tok[d] == With(t) && o'.tok == o.tok[d := Nowhere]
             && o'.h.Keys == o.h.Keys
             && (forall b | b in o.h :: o'.h[b] == o.h[b] || (o.h[b] == Chain(d) && b.desc == d && o'.h[b] == Cache(t)))
    requires s.descs[Th(s, t).pc.d].anchor.state != EMPTY
    ensures Accounts(Step(s, Reserve(t)), o') && SameHeld(o.h, o'.h, Dropped)
  {}

  lemma ReserveMove(s: State, o: Owners, t: nat, o': Owners)
    requires Enabled(s, Reserve(t)) && Th(s, t).pc.d in o.tok && o.tok[Th(s, t).pc.d] == With(t)
    requires var d := Th(s, t).pc.d;
             && o'.tok == o.tok[d := Nowhere]
             && o'.h.Keys == o.h.Keys
             && (forall b | b in o.h :: o'.h[b] == o.h[b] || (o.h[b] == Chain(d) && b.desc == d && o'.h[b] == Cache(t)))
    ensures DescMove(s, o, Step(s, Reserve(t)), o', t, Th(s, t).pc.d)
  {}

  lemma ReserveItems(s: State, o: Owners, t: nat) returns (o': Owners)
    requires ThreadOk(s, o, t) && Enabled(s, Reserve(t)) && HasToken(Th(s, t).pc, Th(s, t).pc.d)
    requires forall b | b in o.h && o.h[b].Chain? :: b.desc == o.h[b].d
    requires DescOk(s, o, Th(s, t).pc.d)
    ensures var s' := Step(s, Reserve(t));
            var d := Th(s, t).pc.d;
            && o'.tok == o.tok[d := Nowhere]
            && o'.h.Keys == o.h.Keys
            && (forall b | b in o.h :: o'.h[b] == o.h[b] || (o.h[b] == Chain(d) && b.desc == d && o'.h[b] == Cache(t)))
            && ThreadOk(s', o', t) && DescOk(s', o', d)
  {
    var pc := Th(s, t).pc;
    var d, p, n := pc.d, To(Block(pc.d, pc.seen.avail)), pc.seen.count;
    var w := Walk(s.link, p, n);
    NoCache(s, o, t);
    NoRun(s, o, t);
    ExactlySplit(s.link, o.h, p, n, n, Chain(d), Cache(t));
    o' := Owners(Relabel(o.h, w, Cache(t)), o.tok[d := Nowhere]);
    assert Held(o.h, w[0], Chain(d));
    assert w[0] in o'.h && w[0].desc == d && Live(o'.h[w[0]]);
    forall b ensures !Held(o'.h, b, Chain(d)) {
      assert b in w <==> Held(o.h, b, Chain(d));
    }
  }

  lemma {:induction false} FreshWalk(link: Links, d: nat, i: nat, max: nat)
    requires i <= max && forall b: Block | b.desc == d && b.idx < max :: Next(link, b) == FreshNext(b, max)
    ensures var w := Walk(link, To(Block(d, i)), max - i);
            |w| == max - i && Distinct(w) && forall b :: b in w <==> b.desc == d && i <= b.idx < max
    decreases max - i
  {
    if i < max {
      var b0 := Block(d, i);
      var v := Walk(link, Next(link, b0), max - i - 1);
      if i + 1 < max {
        FreshWalk(link, d, i + 1, max);
      } else {
        assert v == [];
      }
      var w := Walk(link, To(b0), max - i);
      assert w == [b0] + v;
      forall b ensures b in w <==> b.desc == d && i <= b.idx < max {
        assert b in w <==> b == b0 || b in v;
      }
      assert b0 !in v;
    }
  }

  /** What taking a new superblock changes. */
  ghost predicate Fresh(s: State, s': State, t: nat, d: nat) {
    && Th(s, t).pc.Idle? && Th(s, t).num == 0 && (d in s.descs ==> s.descs[d].free)
    && s'.max == s.max && s'.used == s.used && s'.partials == s.partials
    && (forall u | u != t :: Th(s', u) == Th(s, u))
    && Th(s', t) == Thread(Idle, To(Block(d, 0)), s.max)
    && d in s'.descs && s'.descs[d].anchor == Anchor(FULL, s.max, 0) && !s'.descs[d].free
    && (d in s.descs ==> s'.descs[d].life > s.descs[d].life)
    && (forall e | e != d :: e in s'.descs <==> e in s.descs)
    && (forall e | e in s.descs && e != d :: s'.descs[e] == s.descs[e])
    && (forall b :: Next(s'.link, b)
                    == if b.desc == d && b.idx < s.max then FreshNext(b, s.max) else Next(s.link, b))
  }

  lemma NewSbFresh(s: State, t: nat, d: nat)
    requires Enabled(s, NewSb(t, d))
    ensures Fresh(s, Step(s, NewSb(t, d)), t, d)
  {
    forall b ensures Next(Step(s, NewSb(t, d)).link, b)
                     == if b.desc == d && b.idx < s.max then FreshNext(b, s.max) else Next(s.link, b) {
      NewSbLinks(s, t, d, b);
    }
  }

  lemma NewSbLinks(s: State, t: nat, d: nat, b: Block)
    requires Enabled(s, NewSb(t, d))
    ensures Next(Step(s, NewSb(t, d)).link, b)
            == if b.desc == d && b.idx < s.max then FreshNext(b, s.max) else Next(s.link, b)
  {
    assert Step(s, NewSb(t, d)).link == s.link + FreshLinks(d, s.max);
    assert b in FreshLinks(d, s.max) <==> b.desc == d && b.idx < s.max;
  }

  lemma NewSbGood(s: State, o: Owners, t: nat, d: nat) returns (o': Owners)
    requires Good(s, o) && Enabled(s, NewSb(t, d))
    ensures Good(Step(s, NewSb(t, d)), o') && SameHeld(o.h, o'.h, Dropped)
  {
    var s' := Step(s, NewSb(t, d));
    NewSbFresh(s, t, d);
    o' := FreshGood(s, o, s', t, d);
  }

  lemma FreshGood(s: State, o: Owners, s': State, t: nat, d: nat) returns (o': Owners)
    requires Good(s, o) && Fresh(s, s', t, d)
    ensures Good(s', o') && SameHeld(o.h, o'.h, Dropped)
  {
    assert ThreadOk(s, o, t) && (d in s.descs ==> DescOk(s, o, d));
    o' := Grant(s, o, t, d);
    FreshThread(s, o, s', t, d, o');
    FreshMove(s, o, s', t, d, o');
    FreshDesc(s, o, s', t, d, o');
    FreshAccounts(s, o, s', t, d, o');
    DescStep(s, o, s', o', t, d);
  }

  /** The owners once thread `t` has put every block of `d`'s new superblock in its cache. */
  ghost predicate Granted(s: State, o: Owners, t: nat, d: nat, o': Owners) {
    && o'.tok == o.tok[d := Nowhere] && (d in o.tok ==> o.tok[d] == Nowhere)
    && (forall b :: b in o'.h <==> b in o.h || (b.desc == d && b.idx < s.max))
    && (forall b | b in o'.h :: if b.desc == d then o'.h[b] == Cache(t) else b in o.h && o'.h[b] == o.h[b])
    && (forall b | b in o.h && b.desc == d :: o.h[b] == Gone && b.idx < s.max)
  }

  lemma Grant(s: State, o: Owners, t: nat, d: nat) returns (o': Owners)
    requires d in o.tok ==> o.tok[d] == Nowhere
    requires forall b | b in o.h && b.desc == d :: o.h[b] == Gone && b.idx < s.max
    ensures Granted(s, o, t, d, o')
  {
    var keys := o.h.Keys + BlocksOf(d, s.max);
    var h' := map b | b in keys :: if b.desc == d then Cache(t) else o.h[b];
    o' := Owners(h', o.tok[d := Nowhere]);
  }

  lemma FreshDesc(s: State, o: Owners, s': State, t: nat, d: nat, o': Owners)
    requires Fresh(s, s', t, d) && Granted(s, o, t, d, o')
    requires forall b | b in o.h && o.h[b].Chain? :: b.desc == o.h[b].d
    ensures DescOk(s', o', d)
  {
    var b := Block(d, 0);
    assert b in o'.h && b.desc == d && Live(o'.h[b]);
  }

  lemma FreshThread(s: State, o: Owners, s': State, t: nat, d: nat, o': Owners)
    requires ThreadOk(s, o, t) && Fresh(s, s', t, d) && Granted(s, o, t, d, o')
    ensures ThreadOk(s', o', t)
  {
    FreshCache(s, o, s', t, d, o');
    NoRun(s, o, t);
    forall b ensures !Held(o'.h, b, Flight(t)) {
      assert !Held(o.h, b, Flight(t));
    }
  }

  lemma FreshCache(s: State, o: Owners, s': State, t: nat, d: nat, o': Owners)
    requires ThreadOk(s, o, t) && Fresh(s, s', t, d) && Granted(s, o, t, d, o')
    ensures Exactly(s'.link, o'.h, To(Block(d, 0)), s.max, Cache(t))
  {
    NoCache(s, o, t);
    FreshWalk(s'.link, d, 0, s.max);
    var w := Walk(s'.link, To(Block(d, 0)), s.max);
    forall b ensures b in w <==> Held(o'.h, b, Cache(t)) {
      assert !Held(o.h, b, Cache(t));
    }
  }

  lemma FreshAccounts(s: State, o: Owners, s': State, t: nat, d: nat, o': Owners)
    requires Accounts(s, o) && Fresh(s, s', t, d) && Granted(s, o, t, d, o')
    requires forall b | b in o.h && b.desc == d :: o.h[b] == Gone
    requires d in o.tok ==> o.tok[d] == Nowhere
    ensures Accounts(s', o') && SameHeld(o.h, o'.h, Dropped)
  {
    GrantedDropped(s, o, t, d, o');
  }

  lemma GrantedDropped(s: State, o: Owners, t: nat, d: nat, o': Owners)
    requires Granted(s, o, t, d, o')
    ensures SameHeld(o.h, o'.h, Dropped)
  {
    forall b ensures Held(o'.h, b, Dropped) <==> Held(o.h, b, Dropped) {}
  }

  lemma FreshMove(s: State, o: Owners, s': State, t: nat, d: nat, o': Owners)
    requires Fresh(s, s', t, d) && Granted(s, o, t, d, o')
    ensures DescMove(s, o, s', o', t, d)
  {}

  // The compare-and-swap that ends a flush

  /** A superblock with a block in flight does not have an EMPTY anchor. */
  lemma FlushTarget(s: State, o: Owners, t: nat)
    requires Good(s, o) && Th(s, t).pc.Linked?
    ensures var pc := Th(s, t).pc;
            && ThreadOk(s, o, t) && pc.d in s.descs && DescOk(s, o, pc.d)
            && Held(o.h, pc.first, Flight(t)) && pc.first.desc == pc.d
            && s.descs[pc.d].anchor.state != EMPTY && !s.descs[pc.d].free
  {
    var pc := Th(s, t).pc;
    assert ThreadOk(s, o, t) && DescOk(s, o, pc.d);
    var w := Walk(s.link, To(pc.first), pc.n);
    assert w[0] == pc.first && w[0] in w;
  }

  /** When the run and the counted chain together make up the superblock, no block of it is
      anywhere else: not with a user, a cache or another flush, and none was dropped. */
  lemma EmptyCovers(s: State, o: Owners, t: nat)
    requires Good(s, o) && Enabled(s, FlushCas(t))
    requires s.descs[Th(s, t).pc.d].anchor.count + Th(s, t).pc.n == s.max
    ensures forall b | b in o.h && b.desc == Th(s, t).pc.d :: o.h[b] == Chain(b.desc) || o.h[b] == Flight(t)
  {
    FlushTarget(s, o, t);
    var pc := Th(s, t).pc;
    var a := s.descs[pc.d].anchor;
    var chain := Walk(s.link, To(Block(pc.d, a.avail)), a.count);
    var run := Walk(s.link, To(pc.first), pc.n);
    CoverAll(o.h, chain, run, t, pc.d, s.max);
  }

  lemma CoverAll(h: map<Block, Holder>, chain: seq<Block>, run: seq<Block>, t: nat, d: nat, max: nat)
    requires Distinct(chain) && Distinct(run) && |chain| + |run| == max
    requires forall b | b in chain :: Held(h, b, Chain(d))
    requires forall b | b in run :: Held(h, b, Flight(t))
    requires forall b | Held(h, b, Flight(t)) || Held(h, b, Chain(d)) :: b.desc == d && b.idx < max
    ensures forall b: Block | b.desc == d && b.idx < max :: Held(h, b, Chain(d)) || Held(h, b, Flight(t))
  {
    var w := chain + run;
    forall i, j | 0 <= i < j < |w| ensures w[i] != w[j] {
      if i < |chain| <= j {
        assert w[i] in chain && w[j] in run;
      }
    }
    forall i | 0 <= i < |w| ensures w[i].desc == d && w[i].idx < max {
      assert w[i] in chain || w[i] in run;
    }
    AllBlocks(w, d, max);
    forall b: Block | b.desc == d && b.idx < max ensures Held(h, b, Chain(d)) || Held(h, b, Flight(t)) {
      assert b in w;
      assert b in chain || b in run;
    }
  }

  lemma FlushCasGood(s: State, o: Owners, t: nat) returns (o': Owners)
    requires Good(s, o) && Enabled(s, FlushCas(t))
    ensures Good(Step(s, FlushCas(t)), o') && KeepsDropped(o, o')
    ensures Step(s, FlushCas(t)).descs[Th(s, t).pc.d].anchor.state != EMPTY ==>
              forall b | Held(o.h, b, Chain(Th(s, t).pc.d)) :: Held(o'.h, b, Dropped)
    ensures (s.descs[Th(s, t).pc.d].anchor.state == FULL
             || Step(s, FlushCas(t)).descs[Th(s, t).pc.d].anchor.state == EMPTY) ==> SameHeld(o.h, o'.h, Dropped)
  {
    FlushTarget(s, o, t);
    var d := Th(s, t).pc.d;
    var s' := Step(s, FlushCas(t));
    if s.descs[d].anchor.count + Th(s, t).pc.n == s.max {
      EmptyCovers(s, o, t);
      o' := FlushEmpty(s, o, s', t);
    } else {
      o' := FlushPartial(s, o, s', t);
    }
  }

  /** What a successful flush changes: thread `t`'s program counter and one anchor. */
  ghost predicate Swapped(s: State, s': State, t: nat, pc': Pc, a: Anchor) {
    && Th(s, t).pc.Linked? && Th(s, t).pc.d in s.descs
    && s' == SetPc(s, t, pc').(descs := s.descs[Th(s, t).pc.d := s.descs[Th(s, t).pc.d].(anchor := a)])
  }

  lemma FlushEmpty(s: State, o: Owners, s': State, t: nat) returns (o': Owners)
    requires Good(s, o) && Th(s, t).pc.Linked? && Th(s, t).pc.d in s.descs
    requires Th(s, t).pc.d in s'.descs && s'.descs[Th(s, t).pc.d].anchor.state == EMPTY
    requires Swapped(s, s', t, Unmapping(Th(s, t).pc.d, s.descs[Th(s, t).pc.d].life), s'.descs[Th(s, t).pc.d].anchor)
    requires forall b | b in o.h && b.desc == Th(s, t).pc.d :: o.h[b] == Chain(b.desc) || o.h[b] == Flight(t)
    ensures Good(s', o') && SameHeld(o.h, o'.h, Dropped)
  {
    FlushTarget(s, o, t);
    var d := Th(s, t).pc.d;
    o' := Empty(o, t, d);
    FlushEmptyThread(s, o, s', t, o');
    FlushEmptyMove(s, o, s', t, o');
    FlushEmptyAccounts(s, o, s', t, o');
    EmptiedKeeps(o, o', t, d);
    DescStep(s, o, s', o', t, d);
  }

  lemma EmptiedKeeps(o: Owners, o': Owners, t: nat, d: nat)
    requires Emptied(o, o', t, d)
    ensures SameHeld(o.h, o'.h, Dropped)
  {}

  ghost predicate Emptied(o: Owners, o': Owners, t: nat, d: nat) {
    && o'.tok == o.tok && o'.h.Keys == o.h.Keys
    && (forall b | b in o.h :: o'.h[b] == if b.desc == d then Gone else o.h[b])
    && (forall b | b in o.h && b.desc == d :: o.h[b] == Chain(d) || o.h[b] == Flight(t))
  }

  lemma Empty(o: Owners, t: nat, d: nat) returns (o': Owners)
    requires forall b | b in o.h && b.desc == d :: o.h[b] == Chain(d) || o.h[b] == Flight(t)
    ensures Emptied(o, o', t, d)
  {
    o' := o.(h := map b | b in o.h :: if b.desc == d then Gone else o.h[b]);
  }

  lemma FlushEmptyThread(s: State, o: Owners, s': State, t: nat, o': Owners)
    requires ThreadOk(s, o, t) && Th(s, t).pc.Linked? && Emptied(o, o', t, Th(s, t).pc.d) && s'.link == s.link
    requires Th(s, t).pc.d in s'.descs && s'.descs[Th(s, t).pc.d].anchor.state == EMPTY
    requires Th(s', t) == Th(s, t).(pc := Unmapping(Th(s, t).pc.d, s'.descs[Th(s, t).pc.d].life))
    ensures ThreadOk(s', o', t)
  {
    var th := Th(s, t);
    ExactlyFrame(s.link, s'.link, o.h, o'.h, th.head, th.num, Cache(t));
    forall b ensures !Held(o'.h, b, Flight(t)) {
      assert Held(o.h, b, Flight(t)) ==> b.desc == th.pc.d;
    }
  }

  lemma FlushEmptyAccounts(s: State, o: Owners, s': State, t: nat, o': Owners)
    requires Accounts(s, o) && Th(s, t).pc.Linked? && Emptied(o, o', t, Th(s, t).pc.d)
    requires Th(s, t).pc.d in s'.descs && Swapped(s, s', t, Th(s', t).pc, s'.descs[Th(s, t).pc.d].anchor)
    requires s'.descs[Th(s, t).pc.d].anchor.state == EMPTY
    ensures Accounts(s', o')
  {}

  lemma FlushEmptyMove(s: State, o: Owners, s': State, t: nat, o': Owners)
    requires Th(s, t).pc.Linked? && Emptied(o, o', t, Th(s, t).pc.d)
    requires Th(s, t).pc.d in o.tok
    requires Th(s, t).pc.d in s'.descs && s'.descs[Th(s, t).pc.d].anchor.state == EMPTY
    requires Swapped(s, s', t, Th(s', t).pc, s'.descs[Th(s, t).pc.d].anchor)
    ensures DescMove(s, o, s', o', t, Th(s, t).pc.d)
  {}

  lemma FlushPartial(s: State, o: Owners, s': State, t: nat) returns (o': Owners)
    requires Good(s, o) && Th(s, t).pc.Linked? && Th(s, t).pc.d in s.descs
    requires var pc := Th(s, t).pc;
             var st := s.descs[pc.d].anchor.state;
             Swapped(s, s', t, if st == FULL then Pushing(pc.d) else Idle, Anchor(PARTIAL, pc.first.idx, pc.n))
    ensures Good(s', o') && KeepsDropped(o, o')
    ensures forall b | Held(o.h, b, Chain(Th(s, t).pc.d)) :: Held(o'.h, b, Dropped)
    ensures s.descs[Th(s, t).pc.d].anchor.state == FULL ==> SameHeld(o.h, o'.h, Dropped)
  {
    FlushTarget(s, o, t);
    var pc := Th(s, t).pc;
    var d := pc.d;
    var wasFull := s.descs[d].anchor.state == FULL;
    o' := Return(s, o, t, d, wasFull);
    FlushPartialThread(s, o, s', t, o', wasFull);
    FlushPartialMove(s, o, s', t, o', wasFull);
    FlushPartialDesc(s, o, s', t, o');
    FlushPartialAccounts(s, o, s', t, o', wasFull);
    ReturnedKeeps(o, o', t, d, wasFull);
    DescStep(s, o, s', o', t, d);
  }

  lemma ReturnedKeeps(o: Owners, o': Owners, t: nat, d: nat, wasFull: bool)
    requires Returned(o, o', t, d, wasFull)
    ensures KeepsDropped(o, o') && forall b | Held(o.h, b, Chain(d)) :: Held(o'.h, b, Dropped)
    ensures (forall b :: !Held(o.h, b, Chain(d))) ==> SameHeld(o.h, o'.h, Dropped)
  {
    if forall b :: !Held(o.h, b, Chain(d)) {
      forall b ensures Held(o'.h, b, Dropped) <==> Held(o.h, b, Dropped) {
        assert !Held(o.h, b, Chain(d));
      }
    }
  }

  ghost predicate Returned(o: Owners, o': Owners, t: nat, d: nat, wasFull: bool) {
    && d in o.tok && (wasFull ==> o.tok[d] == Nowhere)
    && o'.tok == (if wasFull then o.tok[d := With(t)] else o.tok) && o'.h.Keys == o.h.Keys
    && (forall b | b in o.h :: o'.h[b] == if o.h[b] == Flight(t) then Chain(d)
                                         else if o.h[b] == Chain(d) then Dropped else o.h[b])
    && (forall b | b in o.h && (o.h[b] == Flight(t) || o.h[b] == Chain(d)) :: b.desc == d)
  }

  lemma Return(s: State, o: Owners, t: nat, d: nat, wasFull: bool) returns (o': Owners)
    requires ThreadOk(s, o, t) && RunNum(Th(s, t).pc) > 0 && Th(s, t).pc.d == d
    requires d in o.tok && (wasFull ==> o.tok[d] == Nowhere)
    requires forall b | b in o.h && o.h[b].Chain? :: b.desc == o.h[b].d
    ensures Returned(o, o', t, d, wasFull)
  {
    var h' := map b | b in o.h :: if o.h[b] == Flight(t) then Chain(d)
                                  else if o.h[b] == Chain(d) then Dropped else o.h[b];
    o' := Owners(h', if wasFull then o.tok[d := With(t)] else o.tok);
    forall b | b in o.h && (o.h[b] == Flight(t) || o.h[b] == Chain(d)) ensures b.desc == d {
      assert o.h[b] == Flight(t) ==> Held(o.h, b, Flight(t));
    }
  }

  lemma FlushPartialThread(s: State, o: Owners, s': State, t: nat, o': Owners, wasFull: bool)
    requires ThreadOk(s, o, t) && Th(s, t).pc.Linked? && Returned(o, o', t, Th(s, t).pc.d, wasFull)
    requires s'.link == s.link
    requires Th(s', t) == Th(s, t).(pc := if wasFull then Pushing(Th(s, t).pc.d) else Idle)
    ensures ThreadOk(s', o', t)
  {
    var th := Th(s, t);
    ExactlyFrame(s.link, s'.link, o.h, o'.h, th.head, th.num, Cache(t));
    assert forall b :: !Held(o'.h, b, Flight(t));
  }

  lemma FlushPartialDesc(s: State, o: Owners, s': State, t: nat, o': Owners)
    requires ThreadOk(s, o, t) && Th(s, t).pc.Linked? && s'.link == s.link && Th(s, t).pc.d in s.descs
    requires Returned(o, o', t, Th(s, t).pc.d, s.descs[Th(s, t).pc.d].anchor.state == FULL)
    requires DescOk(s, o, Th(s, t).pc.d) && s.descs[Th(s, t).pc.d].anchor.state != EMPTY
    requires Th(s, t).pc.first.desc == Th(s, t).pc.d
    requires Swapped(s, s', t, Th(s', t).pc, Anchor(PARTIAL, Th(s, t).pc.first.idx, Th(s, t).pc.n))
    ensures DescOk(s', o', Th(s, t).pc.d)
  {
    var pc := Th(s, t).pc;
    var w := Walk(s.link, To(pc.first), pc.n);
    assert pc.first == Block(pc.d, pc.first.idx);
    forall b ensures b in w <==> Held(o'.h, b, Chain(pc.d)) {
      assert b in w <==> Held(o.h, b, Flight(t));
    }
  }

  lemma FlushPartialAccounts(s: State, o: Owners, s': State, t: nat, o': Owners, wasFull: bool)
    requires Accounts(s, o) && Th(s, t).pc.Linked? && Returned(o, o', t, Th(s, t).pc.d, wasFull)
    requires Th(s, t).pc.d in s'.descs && Swapped(s, s', t, Th(s', t).pc, s'.descs[Th(s, t).pc.d].anchor)
    requires s.descs[Th(s, t).pc.d].anchor.state != EMPTY
    ensures Accounts(s', o')
  {}

  lemma FlushPartialMove(s: State, o: Owners, s': State, t: nat, o': Owners, wasFull: bool)
    requires Th(s, t).pc.Linked? && Returned(o, o', t, Th(s, t).pc.d, wasFull)
    requires Th(s, t).pc.d in s.descs && s.descs[Th(s, t).pc.d].anchor.state != EMPTY
    requires Th(s, t).pc.d in s'.descs
    requires Swapped(s, s', t, Th(s', t).pc, s'.descs[Th(s, t).pc.d].anchor)
    ensures DescMove(s, o, s', o', t, Th(s, t).pc.d)
  {}
}
