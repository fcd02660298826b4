/**
  Releasing the segment of an emptied superblock.  After the compare-and-swap to EMPTY the
  flushing thread unregisters and unmaps whatever segment the descriptor then holds.  A
  popper may have retired the descriptor in between and another thread taken it for a new
  superblock; the release is harmless exactly when that has not happened.
  */
module ProtocolUnmap {
  import opened Chains
  import opened Protocol
  import opened ProtocolInvariant
  import opened ProtocolSafety

  /** The descriptor still describes the superblock that the flush emptied. */
  predicate OnTime(s: State, l: Label) {
    l.Unmap? && Th(s, l.t).pc.Unmapping? && Th(s, l.t).pc.d in s.descs
    ==> Th(s, l.t).pc.life == s.descs[Th(s, l.t).pc.d].life
  }

  predicate OnTimeRun(s: State, ls: seq<Label>)
    requires CanRun(s, ls)
    decreases |ls|
  {
    ls == [] || (OnTime(s, ls[0]) && OnTimeRun(Step(s, ls[0]), ls[1..]))
  }

  predicate DueNow(s: State, t: nat, d: nat) {
    var pc := Th(s, t).pc;
    pc.Unmapping? && pc.d == d && d in s.descs && pc.life == s.descs[d].life
  }

  ghost predicate SegmentsHeld(s: State) {
    && (forall d | d in s.descs && s.descs[d].anchor.state != EMPTY :: s.descs[d].mapped)
    && (forall t, d | DueNow(s, t, d) :: s.descs[d].mapped)
    && (forall t, u, d | DueNow(s, t, d) && DueNow(s, u, d) :: t == u)
  }

  lemma DueMeansEmpty(s: State, t: nat, d: nat)
    requires Inv(s) && DueNow(s, t, d)
    ensures s.descs[d].anchor.state == EMPTY
  {
    var o :| Good(s, o);
    assert ThreadOk(s, o, t);
  }

  lemma UnmappingPast(s: State, t: nat)
    requires Inv(s) && Th(s, t).pc.Unmapping?
    ensures Th(s, t).pc.d in s.descs && Th(s, t).pc.life <= s.descs[Th(s, t).pc.d].life
  {
    var o :| Good(s, o);
    assert ThreadOk(s, o, t);
  }

  lemma TargetLive(s: State, t: nat)
    requires Inv(s) && Th(s, t).pc.Linked?
    ensures Th(s, t).pc.d in s.descs && s.descs[Th(s, t).pc.d].anchor.state != EMPTY
  {
    var o :| Good(s, o);
    FlushTarget(s, o, t);
  }

  lemma StepKeepsSegments(s: State, l: Label)
    requires Inv(s) && SegmentsHeld(s) && Enabled(s, l) && OnTime(s, l)
    ensures SegmentsHeld(Step(s, l))
  {
    match l {
      case FlushCas(t) => FlushKeepsSegments(s, t);
      case NewSb(t, d) => NewSbKeepsSegments(s, t, d);
      case Unmap(t) => UnmapKeepsSegments(s, t);
      case _ => OtherKeepsSegments(s, l);
    }
  }

  lemma FlushKeepsSegments(s: State, t: nat)
    requires Inv(s) && SegmentsHeld(s) && Enabled(s, FlushCas(t))
    ensures SegmentsHeld(Step(s, FlushCas(t)))
  {
    var s' := Step(s, FlushCas(t));
    forall u, e | DueNow(s', u, e) ensures if e == Th(s, t).pc.d then u == t else DueNow(s, u, e) {
      FlushDue(s, t, u, e);
    }
    TargetLive(s, t);
    SegmentsAfterFlush(s, t);
  }

  /** Whoever has to release a segment after the swap either had to before or is `t`. */
  lemma FlushDue(s: State, t: nat, u: nat, e: nat)
    requires Inv(s) && Enabled(s, FlushCas(t)) && DueNow(Step(s, FlushCas(t)), u, e)
    ensures if e == Th(s, t).pc.d then u == t else DueNow(s, u, e)
  {
    if u == t {
      OwnFlushDue(s, t, e);
    } else {
      DueBeforeFlush(s, t, u, e);
      DueElsewhere(s, t, u, e);
    }
  }

  lemma OwnFlushDue(s: State, t: nat, e: nat)
    requires Enabled(s, FlushCas(t)) && DueNow(Step(s, FlushCas(t)), t, e)
    ensures e == Th(s, t).pc.d
  {}

  lemma DueElsewhere(s: State, t: nat, u: nat, e: nat)
    requires Inv(s) && Th(s, t).pc.Linked? && DueNow(s, u, e)
    ensures e != Th(s, t).pc.d
  {
    DueMeansEmpty(s, u, e);
    TargetLive(s, t);
  }

  lemma DueBeforeFlush(s: State, t: nat, u: nat, e: nat)
    requires Enabled(s, FlushCas(t)) && DueNow(Step(s, FlushCas(t)), u, e) && u != t
    ensures DueNow(s, u, e)
  {}

  lemma SegmentsAfterFlush(s: State, t: nat)
    requires SegmentsHeld(s) && Enabled(s, FlushCas(t)) && s.descs[Th(s, t).pc.d].anchor.state != EMPTY
    requires forall u, e | DueNow(Step(s, FlushCas(t)), u, e) :: if e == Th(s, t).pc.d then u == t else DueNow(s, u, e)
    ensures SegmentsHeld(Step(s, FlushCas(t)))
  {
    var s' := Step(s, FlushCas(t));
    assert forall e :: e in s'.descs <==> e in s.descs;
    assert forall e | e in s.descs :: s'.descs[e].mapped == s.descs[e].mapped && s'.descs[e].life == s.descs[e].life;
  }

  lemma NewSbKeepsSegments(s: State, t: nat, d: nat)
    requires Inv(s) && SegmentsHeld(s) && Enabled(s, NewSb(t, d))
    ensures SegmentsHeld(Step(s, NewSb(t, d)))
  {
    forall u, e | DueNow(Step(s, NewSb(t, d)), u, e) ensures DueNow(s, u, e) && e != d {
      NewSbDue(s, t, d, u, e);
    }
    SegmentsAfterNewSb(s, t, d);
  }

  lemma NewSbDue(s: State, t: nat, d: nat, u: nat, e: nat)
    requires Inv(s) && Enabled(s, NewSb(t, d)) && DueNow(Step(s, NewSb(t, d)), u, e)
    ensures DueNow(s, u, e) && e != d
  {
    UnmappingPast(s, u);
  }

  lemma SegmentsAfterNewSb(s: State, t: nat, d: nat)
    requires SegmentsHeld(s) && Enabled(s, NewSb(t, d))
    requires forall u, e | DueNow(Step(s, NewSb(t, d)), u, e) :: DueNow(s, u, e) && e != d
    ensures SegmentsHeld(Step(s, NewSb(t, d)))
  {
    var s' := Step(s, NewSb(t, d));
    assert forall e | e in s'.descs && e != d :: e in s.descs && s'.descs[e] == s.descs[e];
  }

  lemma UnmapKeepsSegments(s: State, t: nat)
    requires Inv(s) && SegmentsHeld(s) && Enabled(s, Unmap(t)) && OnTime(s, Unmap(t))
    ensures SegmentsHeld(Step(s, Unmap(t)))
  {
    DueMeansEmpty(s, t, Th(s, t).pc.d);
    SegmentsAfterUnmap(s, t);
  }

  lemma SegmentsAfterUnmap(s: State, t: nat)
    requires SegmentsHeld(s) && Enabled(s, Unmap(t)) && OnTime(s, Unmap(t))
    requires s.descs[Th(s, t).pc.d].anchor.state == EMPTY
    ensures SegmentsHeld(Step(s, Unmap(t)))
  {
    var s' := Step(s, Unmap(t));
    var d := Th(s, t).pc.d;
    assert DueNow(s, t, d);
    forall u, e | DueNow(s', u, e) ensures DueNow(s, u, e) && e != d {
      assert DueNow(s, u, e);
    }
  }

  lemma OtherKeepsSegments(s: State, l: Label)
    requires Inv(s) && SegmentsHeld(s) && Enabled(s, l)
    requires !l.FlushCas? && !l.NewSb? && !l.Unmap?
    ensures SegmentsHeld(Step(s, l))
  {
    OtherSteps(s, l);
    forall u, e | DueNow(Step(s, l), u, e) ensures DueNow(s, u, e) {
      OtherThreads(s, l, u);
    }
  }

  lemma OtherThreads(s: State, l: Label, u: nat)
    requires Enabled(s, l) && !l.FlushCas? && !l.NewSb? && !l.Unmap?
    ensures Th(Step(s, l), u).pc.Unmapping? ==> Th(Step(s, l), u).pc == Th(s, u).pc
  {}

  lemma OtherSteps(s: State, l: Label)
    requires Enabled(s, l) && !l.FlushCas? && !l.NewSb? && !l.Unmap?
    ensures forall d :: d in Step(s, l).descs <==> d in s.descs
    ensures forall d | d in s.descs ::
              && Step(s, l).descs[d].mapped == s.descs[d].mapped
              && Step(s, l).descs[d].life == s.descs[d].life
              && (s.descs[d].anchor.state == EMPTY <==> Step(s, l).descs[d].anchor.state == EMPTY)
  {}

  lemma {:induction false} RunKeepsSegments(s: State, ls: seq<Label>)
    requires Inv(s) && SegmentsHeld(s) && CanRun(s, ls) && OnTimeRun(s, ls)
    ensures Inv(Run(s, ls)) && SegmentsHeld(Run(s, ls))
    decreases |ls|
  {
    if ls != [] {
      StepKeepsInv(s, ls[0]);
      StepKeepsSegments(s, ls[0]);
      RunKeepsSegments(Step(s, ls[0]), ls[1..]);
    }
  }

  // ---- releases that are still to come ----------------------------------------------------

  ghost predicate SomeoneDue(s: State, d: nat) {
    exists t :: DueNow(s, t, d)
  }

  /** An EMPTY superblock that is still mapped has a thread that is about to release it. */
  ghost predicate Pending(s: State) {
    forall d | d in s.descs && s.descs[d].anchor.state == EMPTY && s.descs[d].mapped :: SomeoneDue(s, d)
  }

  /** The release of `d` stays due, unless this step is it or takes `d` again. */
  lemma StaysDue(s: State, l: Label, u: nat, d: nat)
    requires Enabled(s, l) && DueNow(s, u, d) && l != Unmap(u) && !(l.NewSb? && l.d == d)
    ensures DueNow(Step(s, l), u, d)
  {}

  /** Where a step leaves an EMPTY, mapped superblock it was one before, or this flush made
      it so. */
  lemma StillMapped(s: State, l: Label, d: nat)
    requires Enabled(s, l) && d in Step(s, l).descs
    requires Step(s, l).descs[d].anchor.state == EMPTY && Step(s, l).descs[d].mapped
    ensures !(l.NewSb? && l.d == d) && !(l.Unmap? && Th(s, l.t).pc.d == d) && d in s.descs
    ensures (l.FlushCas? && Th(s, l.t).pc.d == d && DueNow(Step(s, l), l.t, d))
            || (s.descs[d].anchor.state == EMPTY && s.descs[d].mapped)
  {}

  lemma StepKeepsPending(s: State, l: Label)
    requires Pending(s) && Enabled(s, l)
    ensures Pending(Step(s, l))
  {
    var s' := Step(s, l);
    forall d | d in s'.descs && s'.descs[d].anchor.state == EMPTY && s'.descs[d].mapped ensures SomeoneDue(s', d) {
      StillMapped(s, l, d);
      if !(l.FlushCas? && Th(s, l.t).pc.d == d && DueNow(s', l.t, d)) {
        var u :| DueNow(s, u, d);
        StaysDue(s, l, u, d);
      }
    }
  }

  lemma {:induction false} RunKeepsPending(s: State, ls: seq<Label>)
    requires Pending(s) && CanRun(s, ls)
    ensures Pending(Run(s, ls))
    decreases |ls|
  {
    if ls != [] {
      StepKeepsPending(s, ls[0]);
      RunKeepsPending(Step(s, ls[0]), ls[1..]);
    }
  }

  /** In every run an EMPTY superblock that is still mapped has its release to come. */
  lemma ReleaseToCome(max: Pos, ls: seq<Label>, d: nat)
    requires CanRun(Init(max), ls) && d in Run(Init(max), ls).descs
    requires var desc := Run(Init(max), ls).descs[d]; desc.anchor.state == EMPTY && desc.mapped
    ensures SomeoneDue(Run(Init(max), ls), d)
  {
    RunKeepsPending(Init(max), ls);
  }

  // ---- what can go wrong, and exactly when ------------------------------------------------

  /** Every held block is mapped, and every release that is due finds its segment. */
  ghost predicate Harmless(s: State) {
    && (forall b, p | At(s, b, p) :: Mapped(s, b))
    && (forall t, d | DueNow(s, t, d) :: Enabled(s, Unmap(t)))
  }

  lemma SegmentsSuffice(s: State)
    requires Inv(s) && SegmentsHeld(s)
    ensures Harmless(s)
  {
    forall b, p | At(s, b, p) ensures Mapped(s, b) {
      PlacedMapped(s, b, p);
    }
    DueEnabled(s);
  }

  lemma PlacedMapped(s: State, b: Block, p: Place)
    requires Inv(s) && SegmentsHeld(s) && At(s, b, p)
    ensures Mapped(s, b)
  {
    PlacedLive(s, b, p);
  }

  lemma DueEnabled(s: State)
    requires SegmentsHeld(s)
    ensures forall t, d | DueNow(s, t, d) :: Enabled(s, Unmap(t))
  {}

  lemma PlacedLive(s: State, b: Block, p: Place)
    requires Inv(s) && At(s, b, p)
    ensures b.desc in s.descs && s.descs[b.desc].anchor.state != EMPTY
  {
    var o :| Good(s, o);
    AtIsHeld(s, o, b, p);
    UnheldIffEmpty(s, b.desc);
  }

  /** A release leaves every held block mapped and every other due release possible if and
      only if it is on time.  A late one unmaps a block that is held, or takes the segment
      that another thread is about to release. */
  lemma ReleaseHarmless(s: State, t: nat)
    requires Inv(s) && SegmentsHeld(s) && Pending(s) && Enabled(s, Unmap(t))
    ensures Harmless(Step(s, Unmap(t))) <==> OnTime(s, Unmap(t))
  {
    if OnTime(s, Unmap(t)) {
      StepKeepsInv(s, Unmap(t));
      UnmapKeepsSegments(s, t);
      SegmentsSuffice(Step(s, Unmap(t)));
    } else {
      LateHarms(s, t);
    }
  }

  lemma LateHarms(s: State, t: nat)
    requires Inv(s) && Pending(s) && Enabled(s, Unmap(t)) && !OnTime(s, Unmap(t))
    ensures !Harmless(Step(s, Unmap(t)))
  {
    var d, s' := Th(s, t).pc.d, Step(s, Unmap(t));
    if s.descs[d].anchor.state == EMPTY {
      var u :| DueNow(s, u, d);
      StaysDue(s, Unmap(t), u, d);
      assert !Enabled(s', Unmap(u));
    } else {
      var b, p := HeldBlock(s, d);
      UnmapMovesNothing(s, t, b, p);
      assert !Mapped(s', b);
    }
  }

  lemma HeldBlock(s: State, d: nat) returns (b: Block, p: Place)
    requires Inv(s) && d in s.descs && s.descs[d].anchor.state != EMPTY
    ensures b.desc == d && At(s, b, p)
  {
    var o :| Good(s, o);
    b, p := SomeHolder(s, o, d);
  }

  lemma UnmapMovesNothing(s: State, t: nat, b: Block, p: Place)
    requires Enabled(s, Unmap(t)) && At(s, b, p)
    ensures At(Step(s, Unmap(t)), b, p)
  {}

  ghost predicate AlwaysHarmless(s: State, ls: seq<Label>)
    requires CanRun(s, ls)
    decreases |ls|
  {
    Harmless(s) && (ls != [] ==> AlwaysHarmless(Step(s, ls[0]), ls[1..]))
  }

  lemma {:induction false} HarmlessFrom(s: State, ls: seq<Label>)
    requires Inv(s) && SegmentsHeld(s) && Pending(s) && CanRun(s, ls)
    ensures AlwaysHarmless(s, ls) <==> OnTimeRun(s, ls)
    decreases |ls|
  {
    SegmentsSuffice(s);
    if ls != [] {
      if OnTime(s, ls[0]) {
        StepKeepsInv(s, ls[0]);
        StepKeepsSegments(s, ls[0]);
        StepKeepsPending(s, ls[0]);
        HarmlessFrom(Step(s, ls[0]), ls[1..]);
      } else {
        ReleaseHarmless(s, ls[0].t);
      }
    }
  }

  /** No state of a run has a held block unmapped or a due release without its segment if and
      only if all its releases are on time. */
  lemma NoFaults(max: Pos, ls: seq<Label>)
    requires CanRun(Init(max), ls)
    ensures AlwaysHarmless(Init(max), ls) <==> OnTimeRun(Init(max), ls)
  {
    InitGood(max);
    HarmlessFrom(Init(max), ls);
  }

  // ---- the same, seen from the thread that takes the descriptor ---------------------------

  /** The thread will release a segment that is no longer the one it emptied. */
  predicate Late(s: State, u: nat) {
    var pc := Th(s, u).pc;
    pc.Unmapping? && pc.d in s.descs && pc.life < s.descs[pc.d].life
  }

  /** Takes a retired descriptor whose release is still due. */
  ghost predicate Hasty(s: State, l: Label) {
    l.NewSb? && SomeoneDue(s, l.d)
  }

  /** A thread is late from the moment its descriptor is taken again until it releases. */
  lemma LateStep(s: State, l: Label, u: nat)
    requires Enabled(s, l)
    requires Th(s, u).pc.Unmapping? ==>
               Th(s, u).pc.d in s.descs && Th(s, u).pc.life <= s.descs[Th(s, u).pc.d].life
    ensures Late(Step(s, l), u) <==> (Late(s, u) && l != Unmap(u)) || (l.NewSb? && DueNow(s, u, l.d))
  {}

  /** Every held block is mapped, and every thread about to release a segment will find the
      one it emptied. */
  ghost predicate Safe(s: State) {
    Harmless(s) && forall u :: !Late(s, u)
  }

  ghost predicate AlwaysSafe(s: State, ls: seq<Label>)
    requires CanRun(s, ls)
    decreases |ls|
  {
    Safe(s) && (ls != [] ==> AlwaysSafe(Step(s, ls[0]), ls[1..]))
  }

  ghost predicate PatientRun(s: State, ls: seq<Label>)
    requires CanRun(s, ls)
    decreases |ls|
  {
    ls == [] || (!Hasty(s, ls[0]) && PatientRun(Step(s, ls[0]), ls[1..]))
  }

  lemma LateAfter(s: State, l: Label)
    requires Inv(s) && Enabled(s, l) && forall u :: !Late(s, u)
    ensures (forall u :: !Late(Step(s, l), u)) <==> !Hasty(s, l)
    ensures OnTime(s, l)
  {
    forall u ensures Late(Step(s, l), u) <==> l.NewSb? && DueNow(s, u, l.d) {
      if Th(s, u).pc.Unmapping? {
        UnmappingPast(s, u);
      }
      LateStep(s, l, u);
    }
    if l.Unmap? {
      UnmappingPast(s, l.t);
      assert !Late(s, l.t);
    }
  }

  lemma {:induction false} SafeFrom(s: State, ls: seq<Label>)
    requires Inv(s) && SegmentsHeld(s) && CanRun(s, ls) && forall u :: !Late(s, u)
    ensures AlwaysSafe(s, ls) <==> PatientRun(s, ls)
    decreases |ls|
  {
    SegmentsSuffice(s);
    if ls != [] {
      LateAfter(s, ls[0]);
      if !Hasty(s, ls[0]) {
        StepKeepsInv(s, ls[0]);
        StepKeepsSegments(s, ls[0]);
        SafeFrom(Step(s, ls[0]), ls[1..]);
      }
    }
  }

  /** A run is safe in all its states if and only if no descriptor is taken again while the
      release of its last superblock is still due. */
  lemma SafeIffPatient(max: Pos, ls: seq<Label>)
    requires CanRun(Init(max), ls)
    ensures AlwaysSafe(Init(max), ls) <==> PatientRun(Init(max), ls)
  {
    InitGood(max);
    SafeFrom(Init(max), ls);
  }

  // A run in which a release comes too late

  lemma {:induction false} Extend(s: State, ls: seq<Label>, l: Label)
    requires CanRun(s, ls) && Enabled(Run(s, ls), l)
    ensures CanRun(s, ls + [l]) && Run(s, ls + [l]) == Step(Run(s, ls), l)
    decreases |ls|
  {
    if ls != [] {
      assert (ls + [l])[1..] == ls[1..] + [l];
      Extend(Step(s, ls[0]), ls[1..], l);
    } else {
      assert ([l])[1..] == [];
    }
  }

  const B0: Block := Block(0, 0)
  const B1: Block := Block(0, 1)

  /** Thread 0 takes a superblock of two blocks and hands one out. */
  lemma LateReleaseStart() returns (ls: seq<Label>)
    ensures CanRun(Init(2), ls)
    ensures var s := Run(Init(2), ls);
            && s.max == 2 && s.used == {B0} && s.partials == [] && s.threads == map[0 := Thread(Idle, To(B1), 1)]
            && s.descs == map[0 := Desc(Anchor(FULL, 2, 0), 1, true, false)]
  {
    ls := [];
    Extend(Init(2), ls, NewSb(0, 0));
    ls := ls + [NewSb(0, 0)];
    var s1 := Run(Init(2), ls);
    assert Next(s1.link, B0) == To(B1);
    Extend(Init(2), ls, Malloc(0));
    ls := ls + [Malloc(0)];
  }

  lemma LateReleaseRun() returns (ls: seq<Label>)
    ensures CanRun(Init(2), ls)
    ensures var s := Run(Init(2), ls);
            && s.max == 2 && s.used == {B0} && s.partials == [] && s.threads.Keys == {0}
            && s.descs == map[0 := Desc(Anchor(FULL, 2, 0), 1, true, false)]
            && Th(s, 0).pc == Flushing(0, B1, B1, 1) && Th(s, 0).num == 0
  {
    ls := LateReleaseStart();
    var s := Run(Init(2), ls);
    assert RunLength(s, Next(s.link, B1), 0, 0) == 0;
    assert RunLength(s, To(B1), 1, 0) == 1 && RunTail(s, To(B1), 1, 0) == B1;
    Extend(Init(2), ls, FlushBegin(0));
    ls := ls + [FlushBegin(0)];
  }

  /** It flushes the other block, so the superblock becomes PARTIAL and is listed. */
  lemma LateReleasePartial() returns (ls: seq<Label>)
    ensures CanRun(Init(2), ls)
    ensures var s := Run(Init(2), ls);
            && s.max == 2 && s.used == {B0} && s.partials == [0] && s.threads.Keys == {0}
            && s.descs == map[0 := Desc(Anchor(PARTIAL, 1, 1), 1, true, false)]
            && Th(s, 0).pc == Idle && Th(s, 0).num == 0
  {
    ls := LateReleaseRun();
    Extend(Init(2), ls, FlushLoad(0));
    ls := ls + [FlushLoad(0)];
    Extend(Init(2), ls, FlushCas(0));
    ls := ls + [FlushCas(0)];
    Extend(Init(2), ls, Push(0));
    ls := ls + [Push(0)];
  }

  lemma LateReleaseSecond() returns (ls: seq<Label>)
    ensures CanRun(Init(2), ls)
    ensures var s := Run(Init(2), ls);
            && s.max == 2 && s.used == {} && s.partials == [0] && s.threads.Keys == {0}
            && s.descs == map[0 := Desc(Anchor(PARTIAL, 1, 1), 1, true, false)]
            && Th(s, 0).pc == Flushing(0, B0, B0, 1)
  {
    ls := LateReleasePartial();
    Extend(Init(2), ls, Free(0, B0));
    ls := ls + [Free(0, B0)];
    var s := Run(Init(2), ls);
    assert RunLength(s, Next(s.link, B0), 0, 0) == 0;
    assert RunLength(s, To(B0), 1, 0) == 1 && RunTail(s, To(B0), 1, 0) == B0;
    Extend(Init(2), ls, FlushBegin(0));
    ls := ls + [FlushBegin(0)];
  }

  /** Then the user frees its block and thread 0 empties the superblock. */
  lemma LateReleaseEmpty() returns (ls: seq<Label>)
    ensures CanRun(Init(2), ls)
    ensures var s := Run(Init(2), ls);
            && s.max == 2 && s.used == {} && s.partials == [0] && s.threads.Keys == {0}
            && s.descs == map[0 := Desc(Anchor(EMPTY, 0, 1), 1, true, false)]
            && Th(s, 0).pc == Unmapping(0, 1)
  {
    ls := LateReleaseSecond();
    Extend(Init(2), ls, FlushLoad(0));
    ls := ls + [FlushLoad(0)];
    Extend(Init(2), ls, FlushCas(0));
    ls := ls + [FlushCas(0)];
  }

  lemma LateReleaseRetired() returns (ls: seq<Label>)
    ensures CanRun(Init(2), ls)
    ensures var s := Run(Init(2), ls);
            && s.max == 2 && s.used == {} && s.threads.Keys == {0, 1}
            && s.descs == map[0 := Desc(Anchor(EMPTY, 0, 1), 1, true, true)]
            && Th(s, 0).pc == Unmapping(0, 1)
  {
    ls := LateReleaseEmpty();
    Extend(Init(2), ls, Pop(1));
    ls := ls + [Pop(1)];
    Extend(Init(2), ls, Load(1));
    ls := ls + [Load(1)];
    Extend(Init(2), ls, Retire(1));
    ls := ls + [Retire(1)];
  }

  /** Before thread 0 releases the segment, thread 1 retires the descriptor and thread 2
      takes it for a new superblock and hands out a block of it: the release that follows
      unmaps a superblock whose block is in use. */
  lemma LateReleaseHarms() returns (ls: seq<Label>)
    ensures CanRun(Init(2), ls)
    ensures var s := Run(Init(2), ls);
            && Enabled(s, Unmap(0)) && !OnTime(s, Unmap(0)) && !Unheld(s, Th(s, 0).pc.d)
            && B0 in s.used && !Mapped(Step(s, Unmap(0)), B0)
  {
    ls := LateReleaseRetired();
    Extend(Init(2), ls, NewSb(2, 0));
    ls := ls + [NewSb(2, 0)];
    Extend(Init(2), ls, Malloc(2));
    ls := ls + [Malloc(2)];
    assert At(Run(Init(2), ls), B0, InUse);
  }

  lemma LateReleaseRefilled() returns (ls: seq<Label>)
    ensures CanRun(Init(2), ls)
    ensures var s := Run(Init(2), ls);
            && s.max == 2 && s.threads.Keys == {0, 1, 2}
            && s.descs == map[0 := Desc(Anchor(FULL, 2, 0), 2, true, false)]
            && Th(s, 0).pc == Unmapping(0, 1) && Th(s, 2) == Thread(Idle, To(B0), 2)
            && Next(s.link, B0) == To(B1) && Next(s.link, B1) == Null
  {
    ls := LateReleaseRetired();
    Extend(Init(2), ls, NewSb(2, 0));
    ls := ls + [NewSb(2, 0)];
  }

  /** Thread 2 flushes the new superblock whole, so the anchor is EMPTY again when thread 0
      comes late; it takes the segment and thread 2 finds none to release. */
  lemma LateReleaseStarves() returns (ls: seq<Label>)
    ensures CanRun(Init(2), ls)
    ensures var s := Run(Init(2), ls);
            && Enabled(s, Unmap(0)) && !OnTime(s, Unmap(0))
            && 0 in s.descs && s.descs[0].anchor.state == EMPTY
            && DueNow(Step(s, Unmap(0)), 2, 0) && !Enabled(Step(s, Unmap(0)), Unmap(2))
  {
    ls := LateReleaseRefilled();
    var s := Run(Init(2), ls);
    WholeRun(s);
    Extend(Init(2), ls, FlushBegin(2));
    ls := ls + [FlushBegin(2)];
    Extend(Init(2), ls, FlushLoad(2));
    ls := ls + [FlushLoad(2)];
    Extend(Init(2), ls, FlushCas(2));
    ls := ls + [FlushCas(2)];
  }

  lemma WholeRun(s: State)
    requires s.max == 2 && Next(s.link, B0) == To(B1) && Next(s.link, B1) == Null
    ensures RunLength(s, To(B0), 2, 0) == 2 && RunTail(s, To(B0), 2, 0) == B1
  {
    assert RunLength(s, Null, 0, 0) == 0;
    assert RunLength(s, To(B1), 1, 0) == 1 && RunTail(s, To(B1), 1, 0) == B1;
  }
}
