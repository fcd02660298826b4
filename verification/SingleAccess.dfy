/**
  The run-once barrier as a protocol: any number of calls of `with` and `with_then`, whose
  reads and writes of the three flags interleave one at a time.
  */
module SingleAccess {
  /** Where a call is: before reading `skip`, before the swap, inside `func`, before each of
      the two releasing writes, inside `after`, in the spin loop, returned. */
  datatype Pc = Entry | AtSwap | InFunc | AtRelease | AtSkip | InAfter | Spin | Returned

  /** A call of `with_then` has an `after`. */
  datatype Call = Call(hasAfter: bool, pc: Pc)

  /** The flags, the calls made so far, and in which calls `func` was started and completed
      and `after` was started. */
  datatype State = State(access: bool, wait: bool, skip: bool, calls: seq<Call>,
                         started: seq<nat>, completed: seq<nat>, afters: seq<nat>)

  datatype Label = New(hasAfter: bool) | Advance(call: nat)

  ghost predicate Init(s: State) {
    s == State(false, true, false, [], [], [], [])
  }

  predicate Enabled(s: State, l: Label) {
    match l
    case New(_) => true
    case Advance(c) => c < |s.calls| && !s.calls[c].pc.Returned?
  }

  function Moved(s: State, c: nat, pc: Pc): State
    requires c < |s.calls|
  {
    s.(calls := s.calls[c := s.calls[c].(pc := pc)])
  }

  function Step(s: State, l: Label): State
    requires Enabled(s, l)
  {
    match l
    case New(hasAfter) => s.(calls := s.calls + [Call(hasAfter, Entry)])
    case Advance(c) =>
      match s.calls[c].pc
      case Entry => Moved(s, c, if s.skip then Returned else AtSwap)
      case AtSwap =>
        if s.access then Moved(s, c, Spin)
        else Moved(s, c, InFunc).(access := true, started := s.started + [c])
      case InFunc => Moved(s, c, AtRelease).(completed := s.completed + [c])
      case AtRelease => Moved(s, c, AtSkip).(wait := false)
      case AtSkip =>
        if s.calls[c].hasAfter then Moved(s, c, InAfter).(skip := true, afters := s.afters + [c])
        else Moved(s, c, Spin).(skip := true)
      case InAfter => Moved(s, c, Spin)
      case Spin => Moved(s, c, if s.wait then Spin else Returned)
      case Returned => s
  }

  ghost predicate CanRun(s: State, ls: seq<Label>)
    decreases |ls|
  {
    ls != [] ==> Enabled(s, ls[0]) && CanRun(Step(s, ls[0]), ls[1..])
  }

  ghost function Run(s: State, ls: seq<Label>): State
    requires CanRun(s, ls)
    decreases |ls|
  {
    if ls == [] then s else Run(Step(s, ls[0]), ls[1..])
  }

  // ---- the invariant ---------------------------------------------------------------------

  /** Program points only the winner of the swap reaches. */
  predicate Winning(pc: Pc) {
    pc.InFunc? || pc.AtRelease? || pc.AtSkip? || pc.InAfter?
  }

  ghost predicate Inv(s: State) {
    && (s.skip ==> !s.wait)
    && (!s.wait ==> s.completed != [])
    && (if !s.access then NobodyWon(s) else s.started != [] && s.started[0] < |s.calls| && WonBy(s, s.started[0]))
  }

  ghost predicate NobodyWon(s: State) {
    && s.started == [] && s.completed == [] && s.afters == [] && s.wait
    && forall c | 0 <= c < |s.calls| :: s.calls[c].pc.Entry? || s.calls[c].pc.AtSwap?
  }

  ghost predicate WonBy(s: State, w: nat)
    requires w < |s.calls|
  {
    var pc := s.calls[w].pc;
    && s.started == [w]
    && (Winning(pc) || pc.Spin? || pc.Returned?)
    && s.completed == (if pc.InFunc? then [] else [w])
    && (s.wait <==> pc.InFunc? || pc.AtRelease?)
    && (s.skip <==> pc.InAfter? || pc.Spin? || pc.Returned?)
    && s.afters == (if s.skip && s.calls[w].hasAfter then [w] else [])
    && (pc.InAfter? ==> s.calls[w].hasAfter)
    && (forall c | 0 <= c < |s.calls| && c != w :: !Winning(s.calls[c].pc) && (s.calls[c].pc.Returned? ==> !s.wait))
  }

  lemma StepKeepsInv(s: State, l: Label)
    requires Inv(s) && Enabled(s, l)
    ensures Inv(Step(s, l))
  {
    if l.Advance? && s.access {
      WinnerStep(s, l.call);
    }
  }

  lemma WinnerStep(s: State, c: nat)
    requires Inv(s) && s.access && Enabled(s, Advance(c))
    ensures var s' := Step(s, Advance(c));
            s'.access && s'.started == s.started && |s'.calls| == |s.calls| && WonBy(s', s.started[0])
  {}

  lemma {:induction false} RunKeepsInv(s: State, ls: seq<Label>)
    requires Inv(s) && CanRun(s, ls)
    ensures Inv(Run(s, ls))
    decreases |ls|
  {
    if ls != [] {
      StepKeepsInv(s, ls[0]);
      RunKeepsInv(Step(s, ls[0]), ls[1..]);
    }
  }

  // ---- what the barrier promises ---------------------------------------------------------

  /** In every run `func` is started at most once; no call has returned before it completed;
      and `after` is started at most once, by the call that ran `func`, after the others were released. */
  lemma RunsOnce(s: State, ls: seq<Label>)
    requires Init(s) && CanRun(s, ls)
    ensures var s' := Run(s, ls);
            && |s'.started| <= 1 && s'.completed <= s'.started && s'.afters <= s'.completed
            && (forall c | 0 <= c < |s'.calls| && s'.calls[c].pc.Returned? :: s'.completed != [])
            && (!s'.wait ==> s'.completed != [])
            && (s'.afters != [] ==> !s'.wait && s'.afters[0] < |s'.calls| && s'.calls[s'.afters[0]].hasAfter)
  {
    RunKeepsInv(s, ls);
  }

  /** Own steps left to a call once `wait` is false; the winner is then past its release. */
  function Left(pc: Pc): nat {
    match pc
    case InFunc => 5
    case AtRelease => 4
    case Entry | AtSkip => 3
    case AtSwap | InAfter => 2
    case Spin => 1
    case Returned => 0
  }

  function OwnSteps(ls: seq<Label>, c: nat): nat {
    if ls == [] then 0 else (if ls[0] == Advance(c) then 1 else 0) + OwnSteps(ls[1..], c)
  }

  /** After the release no call is held back: whatever the others do, each of its own steps
      brings it closer to its return, so it takes at most three. */
  lemma {:induction false} ReleasedReturn(s: State, ls: seq<Label>, c: nat)
    requires Inv(s) && !s.wait && CanRun(s, ls) && c < |s.calls|
    ensures c < |Run(s, ls).calls|
    ensures OwnSteps(ls, c) + Left(Run(s, ls).calls[c].pc) <= Left(s.calls[c].pc) <= 3
    decreases |ls|
  {
    AtMostThree(s, c);
    if ls != [] {
      ReleasedStep(s, ls[0], c);
      StepKeepsInv(s, ls[0]);
      ReleasedReturn(Step(s, ls[0]), ls[1..], c);
    }
  }

  lemma AtMostThree(s: State, c: nat)
    requires Inv(s) && !s.wait && c < |s.calls|
    ensures Left(s.calls[c].pc) <= 3 && s.access
  {}

  lemma ReleasedStep(s: State, l: Label, c: nat)
    requires !s.wait && s.access && Enabled(s, l) && c < |s.calls|
    ensures !Step(s, l).wait && c < |Step(s, l).calls|
    ensures Left(Step(s, l).calls[c].pc) + (if l == Advance(c) then 1 else 0) <= Left(s.calls[c].pc)
  {}

  /** In every run from the start: a call takes at most three steps after the release. */
  lemma ReturnsSoon(s: State, ls: seq<Label>, more: seq<Label>, c: nat)
    requires Init(s) && CanRun(s, ls) && CanRun(Run(s, ls), more)
    requires !Run(s, ls).wait && c < |Run(s, ls).calls|
    ensures OwnSteps(more, c) <= 3
    ensures OwnSteps(more, c) == 3 ==>
              c < |Run(Run(s, ls), more).calls| && Run(Run(s, ls), more).calls[c].pc.Returned?
  {
    RunKeepsInv(s, ls);
    ReleasedReturn(Run(s, ls), more, c);
  }

  /** As long as a call has not returned some call can move on: the spinning ones wait for a
      winner that is still on its way to release them. */
  lemma NeverStuck(s: State, ls: seq<Label>, c: nat)
    requires Init(s) && CanRun(s, ls)
    requires c < |Run(s, ls).calls| && !Run(s, ls).calls[c].pc.Returned?
    ensures var s' := Run(s, ls);
            exists w: nat :: Enabled(s', Advance(w)) && Step(s', Advance(w)).calls[w].pc != s'.calls[w].pc
  {
    RunKeepsInv(s, ls);
    var s' := Run(s, ls);
    var w := if s'.calls[c].pc.Spin? && s'.wait then s'.started[0] else c;
    assert Enabled(s', Advance(w)) && Step(s', Advance(w)).calls[w].pc != s'.calls[w].pc;
  }
}
