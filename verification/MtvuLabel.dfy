/** LABEL writes of the VU1 thread: pending writes are merged in one atomic word that the EE thread
    takes and applies.  Steps of both threads interleave one atomic operation at a time. */
module MtvuLabel {
  /** A masked write, as in the high and low half of `gsLabel`. */
  datatype Label = Label(data: bv32, mask: bv32)

  const NONE := Label(0, 0)

  /** LBLID after a write. */
  function Apply(x: bv32, l: Label): bv32 { (x & !l.mask) | (l.data & l.mask) }

  /** What the VU1 thread stores if `a` is pending and it writes `b`. */
  function Merge(a: Label, b: Label): Label {
    Label((a.data & !b.mask) | (b.data & b.mask), a.mask | b.mask)
  }

  function ApplyAll(x: bv32, ls: seq<Label>): bv32 {
    if ls == [] then x else Apply(ApplyAll(x, ls[..|ls| - 1]), ls[|ls| - 1])
  }

  /** A merged write has the effect of both, one after the other. */
  lemma MergeIsBoth(x: bv32, a: Label, b: Label)
    ensures Apply(x, Merge(a, b)) == Apply(Apply(x, a), b)
  {}

  lemma NoneIsNothing(x: bv32)
    ensures Apply(x, NONE) == x
  {}

  lemma {:induction false} ApplySplit(x: bv32, a: seq<Label>, b: seq<Label>)
    ensures ApplyAll(x, a + b) == ApplyAll(ApplyAll(x, a), b)
    decreases |b|
  {
    hide Apply;
    if b == [] {
      assert a + b == a;
    } else {
      assert (a + b)[..|a + b| - 1] == a + b[..|b| - 1];
      ApplySplit(x, a, b[..|b| - 1]);
    }
  }

  /** The VU1 thread: between writes, in the compare-exchange loop, or about to set the flag. */
  datatype Producer = Idle | Trying(write: Label, existing: Label, wanted: Label) | Published

  /** The EE thread in `Get_GSChanges`: it saw the flag, cleared it, took the label, and applies it. */
  datatype Consumer = Away | SawFlag | Cleared | Took(taken: Label)

  /** `pending` and `inHand` are the writes that gsLabel and the consumer hold. */
  datatype State = State(gsLabel: Label, flag: bool, lblid: bv32, producer: Producer, consumer: Consumer,
                         written: seq<Label>, applied: seq<Label>, inHand: seq<Label>, pending: seq<Label>)

  const START := State(NONE, false, 0, Idle, Away, [], [], [], [])

  /** The label stands for the writes it merged, whatever it is applied to. */
  ghost predicate StandsFor(l: Label, ls: seq<Label>) {
    && (forall x :: Apply(x, l) == ApplyAll(x, ls))
    && (ls != [] || l == NONE)
  }

  ghost predicate Inv(s: State) {
    && s.written == s.applied + s.inHand + s.pending
    && s.lblid == ApplyAll(0, s.applied)
    && StandsFor(s.gsLabel, s.pending)
    && (if s.consumer.Took? then StandsFor(s.consumer.taken, s.inHand) else s.inHand == [])
    && (s.producer.Trying? ==> Wants(s.producer.existing, s.producer.write, s.producer.wanted))
    && (s.pending != [] ==> s.flag || s.producer == Published || s.consumer == Cleared)
    && (s.consumer == SawFlag ==> s.flag)
  }

  /** What the loop wants to store has the effect of what it saw, then of the write. */
  ghost predicate Wants(existing: Label, write: Label, wanted: Label) {
    forall x :: Apply(x, wanted) == Apply(Apply(x, existing), write)
  }

  datatype Step = Begin(write: Label) | Exchange | Fail | SetFlag | Look | Clear | Take | Finish

  predicate Enabled(s: State, e: Step) {
    match e
    case Begin(_) => s.producer == Idle
    case Exchange => s.producer.Trying? && s.gsLabel == s.producer.existing
    case Fail => s.producer.Trying?
    case SetFlag => s.producer == Published
    case Look => s.consumer == Away && s.flag
    case Clear => s.consumer == SawFlag
    case Take => s.consumer == Cleared
    case Finish => s.consumer.Took?
  }

  function Next(s: State, e: Step): State
    requires Enabled(s, e)
  {
    match e
    case Begin(w) => s.(producer := Trying(w, NONE, w))
    case Exchange =>
      s.(gsLabel := s.producer.wanted, producer := Published, written := s.written + [s.producer.write],
         pending := s.pending + [s.producer.write])
    case Fail => s.(producer := Trying(s.producer.write, s.gsLabel, Merge(s.gsLabel, s.producer.write)))
    case SetFlag => s.(flag := true, producer := Idle)
    case Look => s.(consumer := SawFlag)
    case Clear => s.(flag := false, consumer := Cleared)
    case Take => s.(gsLabel := NONE, consumer := Took(s.gsLabel), inHand := s.pending, pending := [])
    case Finish => s.(lblid := Apply(s.lblid, s.consumer.taken), consumer := Away, applied := s.applied + s.inHand, inHand := [])
  }

  lemma ApplyOne(x: bv32, ls: seq<Label>, l: Label)
    ensures ApplyAll(x, ls + [l]) == Apply(ApplyAll(x, ls), l)
  {
    assert (ls + [l])[..|ls|] == ls;
  }

  lemma ExchangeKeeps(s: State)
    requires Inv(s) && Enabled(s, Exchange)
    ensures Inv(Next(s, Exchange))
  {
    hide Apply;
    var t := Next(s, Exchange);
    var w := s.producer.write;
    forall x ensures Apply(x, t.gsLabel) == ApplyAll(x, t.pending) { ApplyOne(x, s.pending, w); }
    assert s.applied + s.inHand + s.pending + [w] == s.applied + s.inHand + t.pending;
  }

  /** Every atomic operation of either thread keeps the invariant. */
  lemma StepKeeps(s: State, e: Step)
    requires Inv(s) && Enabled(s, e)
    ensures Inv(Next(s, e))
  {
    hide Apply;
    match e
    case Begin(w) => forall x ensures Apply(Apply(x, NONE), w) == Apply(x, w) { NoneIsNothing(x); }
    case Exchange => ExchangeKeeps(s);
    case Fail => forall x ensures Apply(x, Merge(s.gsLabel, s.producer.write)) == Apply(Apply(x, s.gsLabel), s.producer.write) {
        MergeIsBoth(x, s.gsLabel, s.producer.write);
      }
    case Take => forall x ensures Apply(x, NONE) == ApplyAll(x, []) { NoneIsNothing(x); }
      assert s.applied + [] + s.pending == s.applied + s.pending + [];
    case Finish =>
      ApplySplit(0, s.applied, s.inHand);
    case _ =>
  }

  ghost predicate Possible(s: State, run: seq<Step>)
    decreases |run|
  {
    run == [] || (Enabled(s, run[0]) && Possible(Next(s, run[0]), run[1..]))
  }

  ghost function After(s: State, run: seq<Step>): State
    requires Possible(s, run)
    decreases |run|
  {
    if run == [] then s else After(Next(s, run[0]), run[1..])
  }

  lemma {:induction false} RunKeeps(s: State, run: seq<Step>)
    requires Inv(s) && Possible(s, run)
    ensures Inv(After(s, run))
    decreases |run|
  {
    hide Inv, Enabled, Next;
    if run != [] {
      StepKeeps(s, run[0]);
      RunKeeps(Next(s, run[0]), run[1..]);
    }
  }

  lemma StartInv()
    ensures Inv(START)
  {
    forall x ensures Apply(x, NONE) == ApplyAll(x, []) { NoneIsNothing(x); }
  }

  /** Coalesced LABEL writes linearize: over every interleaving, each write is applied exactly once and
      in order; a pending write always has the flag set or a step in flight that will look at it; and
      once nothing is in flight, LBLID is what all writes applied in order give. */
  lemma LabelsLinearize(run: seq<Step>)
    requires Possible(START, run)
    ensures var s := After(START, run);
            && s.written == s.applied + s.inHand + s.pending && s.lblid == ApplyAll(0, s.applied)
            && (s.pending != [] ==> s.flag || s.producer == Published || s.consumer == Cleared)
            && (s.producer == Idle && s.consumer == Away && !s.flag ==> s.lblid == ApplyAll(0, s.written))
  {
    hide Apply, After, Possible;
    StartInv();
    RunKeeps(START, run);
    var s := After(START, run);
    if s.pending == [] && s.inHand == [] { assert s.applied + [] + [] == s.applied; }
  }

  // ---- in place ----

  class LabelChannel {
    var gsLabel: Label
    var labelFlag: bool    // InterruptFlagLabel
    var lblid: bv32        // GSSIGLBLID.LBLID
    ghost var model: State

    ghost predicate Valid()
      reads this
    {
      model.gsLabel == gsLabel && model.flag == labelFlag && model.lblid == lblid && Inv(model)
    }

    constructor ()
      ensures Valid() && model == START
    {
      gsLabel, labelFlag, lblid, model := NONE, false, 0, START;
      StartInv();
    }

    /** The label part of `Get_GSChanges`: everything pending is applied. */
    method GetGSChanges()
      requires Valid() && model.consumer == Away
      modifies this
      ensures Valid() && model.consumer == Away && model.producer == old(model.producer) && model.written == old(model.written)
      ensures old(labelFlag) ==> model.applied == model.written && gsLabel == NONE
      ensures gsLabel == old(gsLabel) || gsLabel == NONE
    {
      hide Apply, ApplyAll, StandsFor, Wants;
      if !labelFlag { return; }
      Step(Look);
      labelFlag := false;
      Step(Clear);
      var l := gsLabel;
      gsLabel := NONE;
      Step(Take);
      lblid := Apply(lblid, l);
      Step(Finish);
      assert model.applied + [] + [] == model.applied;
    }

    /** A step of the model that the fields have made. */
    ghost method Step(e: Step)
      requires Inv(model) && Enabled(model, e)
      requires var t := Next(model, e); t.gsLabel == gsLabel && t.flag == labelFlag && t.lblid == lblid
      modifies `model
      ensures Valid() && model == Next(old(model), e)
    {
      hide Inv, Enabled, Next;
      StepKeeps(model, e);
      model := Next(model, e);
    }

    /** The EE thread may look for changes at any moment. */
    method EeMayRun()
      requires Valid() && model.consumer == Away
      modifies this
      ensures Valid() && model.consumer == Away && model.producer == old(model.producer) && model.written == old(model.written)
      ensures gsLabel == old(gsLabel) || gsLabel == NONE
    {
      hide Inv;
      if * { GetGSChanges(); }
    }

    /** The compare-exchange loop of `Gif_HandlerAD_MTVU` for a LABEL write.  The EE thread can get in its
        way at most twice in a row; besides, the weak exchange fails for no reason at most `spurious` times. */
    method HandleLabel(write: Label, spurious: nat)
      requires Valid() && model.consumer == Away && model.producer == Idle
      modifies this
      ensures Valid() && model.consumer == Away && model.producer == Idle && model.written == old(model.written) + [write]
    {
      hide Inv, Merge;
      Step(Begin(write));
      var existing, wanted := NONE, write;
      var left := spurious;
      while true
        invariant Valid() && model.consumer == Away && model.written == old(model.written)
        invariant model.producer == Trying(write, existing, wanted)
        decreases left, if gsLabel == existing then 0 else if gsLabel == NONE then 1 else 2
      {
        var fails := *;
        if gsLabel == existing && !(fails && left > 0) {
          gsLabel := wanted;
          Step(Exchange);
          break;
        }
        if gsLabel == existing { left := left - 1; }
        existing := gsLabel;
        wanted := Merge(existing, write);
        Step(Fail);
        EeMayRun();
      }
      EeMayRun();
      labelFlag := true;
      Step(SetFlag);
    }
  }
}
