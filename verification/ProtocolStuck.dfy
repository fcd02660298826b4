/**
  Descriptors that are never retired and poppers that never get their superblock.  A popper
  reads the anchor once, before its loop, and compares every swap with what it read.
  */
module ProtocolStuck {
  import opened Chains
  import opened Protocol
  import opened ProtocolInvariant
  import opened ProtocolSafety
  import opened ProtocolUnmap
  import opened ProtocolLoss

  /** The descriptor is on the partial list, about to be, or with a popper. */
  ghost predicate Token(s: State, d: nat) {
    d in s.partials || exists t :: HasToken(Th(s, t).pc, d)
  }

  /** A token is handed on, except by a popper that retires or reserves its descriptor. */
  lemma TokenHandedOn(s: State, l: Label, d: nat)
    requires Enabled(s, l) && Token(s, d) && !((l.Retire? || l.Reserve?) && Th(s, l.t).pc.d == d)
    ensures Token(Step(s, l), d)
  {
    if d in s.partials {
      ListedHandedOn(s, l, d);
    } else {
      var t :| HasToken(Th(s, t).pc, d);
      HolderHandsOn(s, l, d, t);
    }
  }

  lemma ListedHandedOn(s: State, l: Label, d: nat)
    requires Enabled(s, l) && d in s.partials
    ensures Token(Step(s, l), d)
  {
    var s' := Step(s, l);
    if l.Pop? && d !in s'.partials {
      assert s.partials == [s.partials[0]] + s'.partials;
      assert HasToken(Th(s', l.t).pc, d);
    }
  }

  lemma HolderHandsOn(s: State, l: Label, d: nat, t: nat)
    requires Enabled(s, l) && HasToken(Th(s, t).pc, d) && !((l.Retire? || l.Reserve?) && Th(s, l.t).pc.d == d)
    ensures Token(Step(s, l), d)
  {
    var s' := Step(s, l);
    if l == Push(t) {
      assert d in s'.partials;
    } else {
      assert HasToken(Th(s', t).pc, d);
    }
  }

  /** And made only by a flush that finds the superblock FULL and leaves it PARTIAL. */
  lemma TokenMade(s: State, l: Label, d: nat)
    requires Enabled(s, l) && Token(Step(s, l), d)
    requires !(l.FlushCas? && Th(s, l.t).pc.d == d && Step(s, l).descs[d].anchor.state != EMPTY)
    ensures Token(s, d)
  {
    var s' := Step(s, l);
    if d in s'.partials {
      if l.Push? && d == Th(s, l.t).pc.d {
        assert HasToken(Th(s, l.t).pc, d);
      } else {
        assert d in s.partials;
      }
    } else {
      var t :| HasToken(Th(s', t).pc, d);
      if l == Pop(t) {
        assert d == s.partials[0];
      } else {
        assert HasToken(Th(s, t).pc, d);
      }
    }
  }

  // ---- descriptors nobody will retire ----------------------------------------------------

  ghost predicate Stranded(s: State, d: nat) {
    d in s.descs && s.descs[d].anchor.state == EMPTY && !s.descs[d].free && !Token(s, d)
  }

  lemma EmptyStays(s: State, l: Label, d: nat)
    requires Inv(s) && Enabled(s, l) && d in s.descs && s.descs[d].anchor.state == EMPTY
    requires !(l.NewSb? && l.d == d)
    ensures d in Step(s, l).descs && Step(s, l).descs[d].anchor.state == EMPTY
    ensures Step(s, l).descs[d].life == s.descs[d].life
    ensures Step(s, l).descs[d].free <==> s.descs[d].free || (l.Retire? && Th(s, l.t).pc.d == d)
    ensures !(l.FlushCas? && Th(s, l.t).pc.d == d) && !(l.Reserve? && Th(s, l.t).pc.d == d)
  {
    if l.FlushCas? {
      TargetLive(s, l.t);
    }
    EmptyUntouched(s, l, d);
  }

  lemma EmptyUntouched(s: State, l: Label, d: nat)
    requires Enabled(s, l) && d in s.descs && s.descs[d].anchor.state == EMPTY
    requires !(l.NewSb? && l.d == d) && !(l.FlushCas? && Th(s, l.t).pc.d == d)
    ensures d in Step(s, l).descs && Step(s, l).descs[d].anchor.state == EMPTY
    ensures Step(s, l).descs[d].life == s.descs[d].life
    ensures Step(s, l).descs[d].free <==> s.descs[d].free || (l.Retire? && Th(s, l.t).pc.d == d)
    ensures !(l.Reserve? && Th(s, l.t).pc.d == d)
  {}

  lemma StrandedStep(s: State, l: Label, d: nat)
    requires Inv(s) && Enabled(s, l) && Stranded(s, d)
    ensures Stranded(Step(s, l), d)
  {
    assert l.Retire? ==> HasToken(Th(s, l.t).pc, Th(s, l.t).pc.d);
    EmptyStays(s, l, d);
    if Token(Step(s, l), d) {
      TokenMade(s, l, d);
    }
  }

  lemma {:induction false} StrandedForever(s: State, ls: seq<Label>, d: nat)
    requires Inv(s) && CanRun(s, ls) && Stranded(s, d)
    ensures Stranded(Run(s, ls), d)
    decreases |ls|
  {
    if ls != [] {
      StrandedStep(s, ls[0], d);
      StepKeepsInv(s, ls[0]);
      StrandedForever(Step(s, ls[0]), ls[1..], d);
    }
  }

  /** While it describes the superblock of this `life`, the descriptor is EMPTY and either
      retired or still has its token. */
  ghost predicate Awaiting(s: State, d: nat, life: nat) {
    && d in s.descs && life <= s.descs[d].life
    && (s.descs[d].life == life ==> s.descs[d].anchor.state == EMPTY && (s.descs[d].free || Token(s, d)))
  }

  lemma AwaitingStep(s: State, l: Label, d: nat, life: nat)
    requires Inv(s) && Enabled(s, l) && Awaiting(s, d, life)
    ensures Awaiting(Step(s, l), d, life)
  {
    if s.descs[d].life == life && !(l.NewSb? && l.d == d) {
      EmptyStays(s, l, d);
      if !Step(s, l).descs[d].free {
        TokenHandedOn(s, l, d);
      }
    } else {
      LivesGrow(s, l, d);
    }
  }

  lemma LivesGrow(s: State, l: Label, d: nat)
    requires Enabled(s, l) && d in s.descs
    ensures d in Step(s, l).descs && s.descs[d].life <= Step(s, l).descs[d].life
    ensures l.NewSb? && l.d == d ==> s.descs[d].life < Step(s, l).descs[d].life
  {}

  lemma {:induction false} AwaitingForever(s: State, ls: seq<Label>, d: nat, life: nat)
    requires Inv(s) && CanRun(s, ls) && Awaiting(s, d, life)
    ensures Awaiting(Run(s, ls), d, life)
    decreases |ls|
  {
    if ls != [] {
      AwaitingStep(s, ls[0], d, life);
      StepKeepsInv(s, ls[0]);
      AwaitingForever(Step(s, ls[0]), ls[1..], d, life);
    }
  }

  /** The emptying flush found the superblock FULL and thus unlisted, or PARTIAL with a token. */
  lemma EmptyingFlush(s: State, t: nat)
    requires Inv(s) && Enabled(s, FlushCas(t))
    requires Step(s, FlushCas(t)).descs[Th(s, t).pc.d].anchor.state == EMPTY
    ensures var d, s' := Th(s, t).pc.d, Step(s, FlushCas(t));
            && s'.descs[d].life == s.descs[d].life && !s'.descs[d].free
            && (s.descs[d].anchor.state == FULL ==> Stranded(s', d))
            && (s.descs[d].anchor.state == PARTIAL ==> Token(s', d))
  {
    var d := Th(s, t).pc.d;
    var o :| Good(s, o);
    FlushTarget(s, o, t);
    TokenOf(s, o, d);
    if s.descs[d].anchor.state == PARTIAL {
      TokenHandedOn(s, FlushCas(t), d);
    } else if Token(Step(s, FlushCas(t)), d) {
      TokenMade(s, FlushCas(t), d);
    }
  }

  /** In every continuation of a flush that empties a superblock its descriptor, while it is
      neither retired nor taken again, has a token if and only if the flush found it PARTIAL.
      Found FULL, it is EMPTY and unretired forever, and no thread will ever see it again. */
  lemma EmptiedHasToken(s: State, t: nat, ls: seq<Label>)
    requires Inv(s) && Enabled(s, FlushCas(t)) && CanRun(Step(s, FlushCas(t)), ls)
    requires Step(s, FlushCas(t)).descs[Th(s, t).pc.d].anchor.state == EMPTY
    ensures var d, s' := Th(s, t).pc.d, Run(Step(s, FlushCas(t)), ls);
            && d in s'.descs
            && (!s'.descs[d].free && s'.descs[d].life == s.descs[d].life ==>
                  (Token(s', d) <==> s.descs[d].anchor.state == PARTIAL))
            && (s.descs[d].anchor.state == FULL ==> Stranded(s', d))
  {
    var d := Th(s, t).pc.d;
    EmptyingFlush(s, t);
    TargetLive(s, t);
    StepKeepsInv(s, FlushCas(t));
    if s.descs[d].anchor.state == FULL {
      StrandedForever(Step(s, FlushCas(t)), ls, d);
    } else {
      AwaitingForever(Step(s, FlushCas(t)), ls, d, s.descs[d].life);
    }
  }

  /** A superblock of one block, taken and flushed at once. */
  lemma StrandingHappens() returns (ls: seq<Label>)
    ensures CanRun(Init(1), ls)
    ensures var s := Run(Init(1), ls);
            && Inv(s) && Enabled(s, FlushCas(0)) && s.descs[Th(s, 0).pc.d].anchor.state == FULL
            && Step(s, FlushCas(0)).descs[Th(s, 0).pc.d].anchor.state == EMPTY
  {
    ls := [];
    Extend(Init(1), ls, NewSb(0, 0));
    ls := ls + [NewSb(0, 0)];
    var s, b := Run(Init(1), ls), Block(0, 0);
    assert RunLength(s, Next(s.link, b), 0, 0) == 0;
    assert RunLength(s, To(b), 1, 0) == 1 && RunTail(s, To(b), 1, 0) == b;
    Extend(Init(1), ls, FlushBegin(0));
    ls := ls + [FlushBegin(0)];
    Extend(Init(1), ls, FlushLoad(0));
    ls := ls + [FlushLoad(0)];
    InitGood(1);
    RunKeepsInv(Init(1), ls);
  }

  // ---- poppers that spin -----------------------------------------------------------------

  /** The popper compares with an anchor that cannot come back: the superblock is EMPTY, or
      the first block of the chain it read is lost. */
  ghost predicate Stale(s: State, t: nat) {
    var pc := Th(s, t).pc;
    && pc.Reserving? && pc.seen.state == PARTIAL && pc.d in s.descs
    && (s.descs[pc.d].anchor.state == EMPTY || Lost(s, Block(pc.d, pc.seen.avail)))
  }

  lemma StaleSpins(s: State, t: nat)
    requires Stale(s, t)
    ensures !Enabled(s, Reserve(t)) && !Enabled(s, Retire(t))
  {
    var pc := Th(s, t).pc;
    if s.descs[pc.d].anchor == pc.seen {
      LostNotCounted(s, pc.d);
    }
  }

  lemma LostNotCounted(s: State, d: nat)
    requires d in s.descs && Lost(s, Block(d, s.descs[d].anchor.avail))
    ensures s.descs[d].anchor.state != PARTIAL
  {
    var o :| Good(s, o) && Held(o.h, Block(d, s.descs[d].anchor.avail), Dropped);
    assert DescOk(s, o, d);
    if s.descs[d].anchor.state == PARTIAL {
      CountedNotDropped(s, o, d);
    }
  }

  lemma CountedNotDropped(s: State, o: Owners, d: nat)
    requires d in s.descs && DescOk(s, o, d) && s.descs[d].anchor.state == PARTIAL
    ensures !Held(o.h, Block(d, s.descs[d].anchor.avail), Dropped)
  {
    var a := s.descs[d].anchor;
    var w := Walk(s.link, To(Block(d, a.avail)), a.count);
    assert w[0] == Block(d, a.avail) && w[0] in w;
  }

  /** A popper only moves on by retiring or reserving. */
  lemma PopperWaits(s: State, l: Label, t: nat)
    requires Enabled(s, l) && Th(s, t).pc.Reserving? && l != Reserve(t) && l != Retire(t)
    ensures Th(Step(s, l), t).pc == Th(s, t).pc
  {}

  lemma PopperHolds(s: State, t: nat)
    requires Inv(s) && Th(s, t).pc.Reserving?
    ensures var d := Th(s, t).pc.d;
            d in s.descs && !s.descs[d].free && forall u | HasToken(Th(s, u).pc, d) :: u == t
  {
    var o :| Good(s, o);
    var d := Th(s, t).pc.d;
    assert ThreadOk(s, o, t) && HasToken(Th(s, t).pc, d) && DescOk(s, o, d);
    TokensKnown(s, o);
  }

  lemma StaleStep(s: State, l: Label, t: nat)
    requires Inv(s) && Enabled(s, l) && Stale(s, t)
    ensures Stale(Step(s, l), t)
  {
    var pc := Th(s, t).pc;
    StaleSpins(s, t);
    PopperWaits(s, l, t);
    PopperHolds(s, t);
    if s.descs[pc.d].anchor.state == EMPTY {
      EmptyStays(s, l, pc.d);
    } else {
      LostStep(s, l, Block(pc.d, pc.seen.avail));
      LivesGrow(s, l, pc.d);
    }
  }

  lemma LostStep(s: State, l: Label, b: Block)
    requires Lost(s, b) && Enabled(s, l)
    ensures Lost(Step(s, l), b)
  {
    var o :| Good(s, o) && Held(o.h, b, Dropped);
    var o' := StepGood(s, o, l);
  }

  /** In every continuation the popper is where it was and can neither reserve nor retire. */
  lemma {:induction false} StaleForever(s: State, ls: seq<Label>, t: nat)
    requires Inv(s) && CanRun(s, ls) && Stale(s, t)
    ensures Stale(Run(s, ls), t) && !Enabled(Run(s, ls), Reserve(t)) && !Enabled(Run(s, ls), Retire(t))
    decreases |ls|
  {
    if ls == [] {
      StaleSpins(s, t);
    } else {
      StaleStep(s, ls[0], t);
      StepKeepsInv(s, ls[0]);
      StaleForever(Step(s, ls[0]), ls[1..], t);
    }
  }

  /** The step swaps in a new anchor for `d`. */
  predicate Flushes(s: State, l: Label, d: nat) {
    l.FlushCas? && Th(s, l.t).pc.Linked? && Th(s, l.t).pc.d == d
  }

  predicate FlushedIn(s: State, ls: seq<Label>, d: nat)
    requires CanRun(s, ls)
    decreases |ls|
  {
    ls != [] && (Flushes(s, ls[0], d) || FlushedIn(Step(s, ls[0]), ls[1..], d))
  }

  /** The popper has read the anchor as it is. */
  predicate Current(s: State, t: nat) {
    var pc := Th(s, t).pc;
    pc.Reserving? && pc.seen.state == PARTIAL && pc.d in s.descs && s.descs[pc.d].anchor == pc.seen
  }

  /** One flush of the superblock, emptying or not, makes the popper stale; nothing else does. */
  lemma CurrentStep(s: State, l: Label, t: nat)
    requires Inv(s) && Enabled(s, l) && Current(s, t) && l != Reserve(t)
    ensures if Flushes(s, l, Th(s, t).pc.d) then Stale(Step(s, l), t) else Current(Step(s, l), t)
    ensures Th(Step(s, l), t).pc == Th(s, t).pc
  {
    var d := Th(s, t).pc.d;
    PopperWaits(s, l, t);
    if Flushes(s, l, d) {
      LivesGrow(s, l, d);
      if Step(s, l).descs[d].anchor.state != EMPTY {
        ChainHead(s, d);
        FlushLoses(s, l.t, Block(d, s.descs[d].anchor.avail));
      }
    } else {
      PopperHolds(s, t);
      AnchorStays(s, l, t);
    }
  }

  lemma AnchorStays(s: State, l: Label, t: nat)
    requires Enabled(s, l) && Th(s, t).pc.Reserving? && Th(s, t).pc.d in s.descs && l != Reserve(t)
    requires !Flushes(s, l, Th(s, t).pc.d) && !s.descs[Th(s, t).pc.d].free
    requires forall u | HasToken(Th(s, u).pc, Th(s, t).pc.d) :: u == t
    ensures Th(s, t).pc.d in Step(s, l).descs
    ensures Step(s, l).descs[Th(s, t).pc.d].anchor == s.descs[Th(s, t).pc.d].anchor
  {
    if l.Reserve? {
      assert HasToken(Th(s, l.t).pc, Th(s, l.t).pc.d);
    }
  }

  /** The popper's swap can succeed after a run if and only if nobody flushed to the
      superblock since the popper read its anchor; otherwise it never can. */
  lemma {:induction false} SwapIffUnflushed(s: State, ls: seq<Label>, t: nat)
    requires Inv(s) && CanRun(s, ls) && Current(s, t) && Reserve(t) !in ls
    ensures Enabled(Run(s, ls), Reserve(t)) <==> !FlushedIn(s, ls, Th(s, t).pc.d)
    ensures FlushedIn(s, ls, Th(s, t).pc.d) ==> Stale(Run(s, ls), t)
    decreases |ls|
  {
    if ls == [] {
      CurrentSwaps(s, t);
    } else {
      assert ls[0] in ls;
      CurrentStep(s, ls[0], t);
      StepKeepsInv(s, ls[0]);
      if Flushes(s, ls[0], Th(s, t).pc.d) {
        StaleForever(Step(s, ls[0]), ls[1..], t);
      } else {
        SwapIffUnflushed(Step(s, ls[0]), ls[1..], t);
      }
    }
  }

  // ---- every popper in every run ----------------------------------------------------------

  /** A popper that read PARTIAL is current or stale. */
  ghost predicate Decided(s: State) {
    forall t | Th(s, t).pc.Reserving? && Th(s, t).pc.seen.state == PARTIAL :: Current(s, t) || Stale(s, t)
  }

  lemma DecidedStep(s: State, l: Label)
    requires Inv(s) && Enabled(s, l) && Decided(s)
    ensures Decided(Step(s, l))
  {
    var s' := Step(s, l);
    forall t | Th(s', t).pc.Reserving? && Th(s', t).pc.seen.state == PARTIAL ensures Current(s', t) || Stale(s', t) {
      if l == Load(t) {
        assert Current(s', t);
      } else {
        PopperBefore(s, l, t);
        if Current(s, t) {
          CurrentStep(s, l, t);
        } else {
          StaleStep(s, l, t);
        }
      }
    }
  }

  lemma PopperBefore(s: State, l: Label, t: nat)
    requires Enabled(s, l) && l != Load(t) && Th(Step(s, l), t).pc.Reserving?
    ensures Th(Step(s, l), t).pc == Th(s, t).pc && l != Reserve(t)
  {}

  lemma {:induction false} RunDecides(s: State, ls: seq<Label>)
    requires Inv(s) && CanRun(s, ls) && Decided(s)
    ensures Inv(Run(s, ls)) && Decided(Run(s, ls))
    decreases |ls|
  {
    if ls != [] {
      DecidedStep(s, ls[0]);
      StepKeepsInv(s, ls[0]);
      RunDecides(Step(s, ls[0]), ls[1..]);
    }
  }

  /** In every run a popper that read PARTIAL can swap now, or it spins in every continuation. */
  lemma SwapNowOrNever(max: Pos, ls: seq<Label>, t: nat, more: seq<Label>)
    requires CanRun(Init(max), ls) && CanRun(Run(Init(max), ls), more)
    requires var pc := Th(Run(Init(max), ls), t).pc; pc.Reserving? && pc.seen.state == PARTIAL
    ensures var s := Run(Init(max), ls);
            Enabled(s, Reserve(t)) || (!Enabled(Run(s, more), Reserve(t)) && !Enabled(Run(s, more), Retire(t)))
  {
    InitGood(max);
    RunDecides(Init(max), ls);
    NowOrNever(Run(Init(max), ls), t, more);
  }

  lemma NowOrNever(s: State, t: nat, more: seq<Label>)
    requires Inv(s) && Decided(s) && CanRun(s, more)
    requires Th(s, t).pc.Reserving? && Th(s, t).pc.seen.state == PARTIAL
    ensures Enabled(s, Reserve(t)) || (!Enabled(Run(s, more), Reserve(t)) && !Enabled(Run(s, more), Retire(t)))
  {
    if Stale(s, t) {
      StaleForever(s, more, t);
    } else {
      CurrentSwaps(s, t);
    }
  }

  lemma CurrentSwaps(s: State, t: nat)
    requires Current(s, t)
    ensures Enabled(s, Reserve(t))
  {}

  /** It happens: thread 1 pops and reads the superblock of the losing flush. */
  lemma SpinningHappens() returns (ls: seq<Label>)
    ensures CanRun(Init(3), ls)
    ensures var s := Run(Init(3), ls); Current(s, 1) && Enabled(s, FlushCas(0)) && Flushes(s, FlushCas(0), 0)
  {
    ls := LossLoaded();
    Extend(Init(3), ls, Pop(1));
    ls := ls + [Pop(1)];
    Extend(Init(3), ls, Load(1));
    ls := ls + [Load(1)];
  }
}
