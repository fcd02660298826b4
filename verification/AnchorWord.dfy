/**
  The anchor as one 64-bit word: state in 2 bits, first free block in 30, count in 32.  The
  protocol compares and swaps anchors; the program compares and swaps these words.
  */
module AnchorWord {
  import opened Options
  import opened Chains
  import opened Protocol
  import opened ProtocolInvariant
  import opened ProtocolSafety

  const AVAIL := 0x4000_0000
  const COUNT := 0x1_0000_0000

  function Code(s: SuperBlockState): nat {
    match s
    case FULL => 0
    case PARTIAL => 1
    case EMPTY => 2
  }

  /** 3 is not a state; converting it panics. */
  function Decode(u: nat): Option<SuperBlockState> {
    if u == 0 then Some(FULL) else if u == 1 then Some(PARTIAL) else if u == 2 then Some(EMPTY) else None
  }

  function Join(low: nat, avail: nat, count: nat): nat {
    low + 4 * avail + 4 * AVAIL * count
  }

  lemma Parts(low: nat, avail: nat, count: nat)
    requires low < 4 && avail < AVAIL
    ensures var w := Join(low, avail, count);
            w % 4 == low && w / 4 % AVAIL == avail && w / (4 * AVAIL) == count
  {
    var w := Join(low, avail, count);
    assert w / 4 == avail + AVAIL * count;
  }

  lemma Rejoin(w: nat)
    ensures w == Join(w % 4, w / 4 % AVAIL, w / (4 * AVAIL))
  {
    assert w / 4 / AVAIL == w / (4 * AVAIL);
  }

  /** The bit field and its setters, which cut a value to the width of its field. */
  class Packed {
    var word: nat

    ghost predicate Valid()
      reads this
    {
      word < 4 * AVAIL * COUNT && Decode(word % 4).Some?
    }

    /** The anchor this word stands for. */
    function Value(): Anchor
      requires Valid()
      reads this
    {
      Anchor(Decode(word % 4).value, word / 4 % AVAIL, word / (4 * AVAIL))
    }

    constructor ()
      ensures Valid() && Value() == Anchor(FULL, 0, 0)
    {
      word := 0;
    }

    method SetState(s: SuperBlockState)
      requires Valid()
      modifies this
      ensures Valid() && Value() == old(Value()).(state := s)
    {
      Rejoin(word);
      Parts(Code(s), word / 4 % AVAIL, word / (4 * AVAIL));
      word := word - word % 4 + Code(s);
    }

    method SetAvail(v: nat)
      requires Valid()
      modifies this
      ensures Valid() && Value() == old(Value()).(avail := v % AVAIL)
    {
      Rejoin(word);
      Parts(word % 4, v % AVAIL, word / (4 * AVAIL));
      word := word - 4 * (word / 4 % AVAIL) + 4 * (v % AVAIL);
    }

    method SetCount(v: nat)
      requires Valid()
      modifies this
      ensures Valid() && Value() == old(Value()).(count := v % COUNT)
    {
      Rejoin(word);
      Parts(word % 4, word / 4 % AVAIL, v % COUNT);
      word := word - 4 * AVAIL * (word / (4 * AVAIL)) + 4 * AVAIL * (v % COUNT);
    }
  }

  function Pack(a: Anchor): nat {
    Join(Code(a.state), a.avail, a.count)
  }

  predicate Fits(a: Anchor, max: nat) {
    a.avail <= max && a.count <= max
  }

  lemma SameWord(a: Anchor, b: Anchor, max: nat)
    requires Fits(a, max) && Fits(b, max) && max < AVAIL
    ensures Pack(a) == Pack(b) <==> a == b
  {
    Parts(Code(a.state), a.avail, a.count);
    Parts(Code(b.state), b.avail, b.count);
  }

  // ---- every anchor of a run fits --------------------------------------------------------

  predicate SeenFits(pc: Pc, max: nat) {
    pc.Linked? || pc.Reserving? ==> Fits(pc.seen, max)
  }

  ghost predicate AllFit(s: State) {
    && (forall d | d in s.descs :: Fits(s.descs[d].anchor, s.max))
    && (forall t :: SeenFits(Th(s, t).pc, s.max))
  }

  lemma RunFits(s: State, t: nat)
    requires Inv(s) && Th(s, t).pc.Linked?
    ensures Th(s, t).pc.n <= s.max && Th(s, t).pc.first.idx < s.max
  {
    var o :| Good(s, o);
    assert ThreadOk(s, o, t);
    var pc := Th(s, t).pc;
    var w := Walk(s.link, To(pc.first), pc.n);
    assert w[0] == pc.first && pc.first in w;
    forall b | b in w ensures b in BlocksOf(pc.d, s.max) {
      assert Held(o.h, b, Flight(t)) && b in o.h;
    }
    DistinctSize(w);
    BlocksOfSize(pc.d, s.max);
    SubsetSize((set b | b in w), BlocksOf(pc.d, s.max));
    assert Held(o.h, pc.first, Flight(t)) && pc.first in o.h;
  }

  lemma SubsetSize(a: set<Block>, b: set<Block>)
    requires a <= b
    ensures |a| <= |b|
  {
    assert b == a + (b - a);
  }

  lemma StepSeenFits(s: State, l: Label, t: nat)
    requires Enabled(s, l) && SeenFits(Th(s, t).pc, s.max)
    requires l.FlushLoad? || l.Load? ==> Fits(s.descs[Th(s, l.t).pc.d].anchor, s.max)
    ensures SeenFits(Th(Step(s, l), t).pc, s.max)
  {}

  lemma StepAnchorFits(s: State, l: Label, d: nat)
    requires Enabled(s, l) && d in Step(s, l).descs && (d in s.descs ==> Fits(s.descs[d].anchor, s.max))
    requires l.FlushCas? ==> Th(s, l.t).pc.n <= s.max && Th(s, l.t).pc.first.idx < s.max
    ensures Fits(Step(s, l).descs[d].anchor, s.max)
  {}

  lemma StepMax(s: State, l: Label)
    requires Enabled(s, l)
    ensures Step(s, l).max == s.max
  {}

  lemma StepFits(s: State, l: Label)
    requires Inv(s) && AllFit(s) && Enabled(s, l)
    ensures AllFit(Step(s, l)) && Step(s, l).max == s.max
  {
    if l.FlushCas? {
      RunFits(s, l.t);
    }
    var s' := Step(s, l);
    StepMax(s, l);
    forall t ensures SeenFits(Th(s', t).pc, s'.max) {
      StepSeenFits(s, l, t);
    }
    forall d | d in s'.descs ensures Fits(s'.descs[d].anchor, s'.max) {
      StepAnchorFits(s, l, d);
    }
  }

  lemma {:induction false} RunAllFit(s: State, ls: seq<Label>)
    requires Inv(s) && AllFit(s) && CanRun(s, ls)
    ensures AllFit(Run(s, ls)) && Run(s, ls).max == s.max
    decreases |ls|
  {
    if ls != [] {
      StepFits(s, ls[0]);
      StepKeepsInv(s, ls[0]);
      RunAllFit(Step(s, ls[0]), ls[1..]);
    }
  }

  /** In every run with superblocks of fewer than 2^30 blocks, a swap finds the word it
      expected exactly if it finds the anchor it expected. */
  lemma SwapComparesAnchors(max: Pos, ls: seq<Label>, t: nat)
    requires max < AVAIL && CanRun(Init(max), ls)
    ensures var s := Run(Init(max), ls);
            var pc := Th(s, t).pc;
            (pc.Linked? || pc.Reserving?) && pc.d in s.descs ==>
              (Pack(s.descs[pc.d].anchor) == Pack(pc.seen) <==> s.descs[pc.d].anchor == pc.seen)
  {
    InitGood(max);
    RunAllFit(Init(max), ls);
    var s := Run(Init(max), ls);
    var pc := Th(s, t).pc;
    if (pc.Linked? || pc.Reserving?) && pc.d in s.descs {
      assert SeenFits(pc, s.max);
      SameWord(s.descs[pc.d].anchor, pc.seen, max);
    }
  }
}
