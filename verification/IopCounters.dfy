/** The six timers of the IOP, as far as their interrupts go: a timer without the repeat bit fires at most
    once until it is armed again. */
module IopCounters {
  import opened Arith

  const FUTURE_TARGET := 0x10_0000_0000

  type Rate = r: int | r > 0 witness 1

  /** What a mode write sets; `hblank` stands for the HBLANK rate. */
  datatype Mode = Mode(gateOn: bool, gateMode: nat, resetOnTarget: bool, intTarget: bool, intOverflow: bool,
                       repeat: bool,
                       toggle: bool, alt: bool, rate: Rate, hblank: bool, stopped: bool)

  /** A timer; `wide` ones have 32 bits.  `irqReq` is mode bit 10 (an interrupt may fire), `hit` the two
      flags for target and overflow, `fired` counts the interrupts raised. */
  datatype Counter = Counter(wide: bool, count: nat, target: nat, sCycleT: int, mode: Mode, irqReq: bool,
                             hit: (bool, bool), stopped: bool, fired: nat)
  {
    function Max(): nat { if wide then 0xffff_ffff else 0xffff }

    function Now(cycle: int): nat {
      if stopped || mode.hblank || cycle < sCycleT then count else count + (cycle - sCycleT) / mode.rate
    }
  }

  datatype Fired = Fired(c: Counter, ret: bool)

  /** `_rcntFireInterrupt`. */
  function FireInterrupt(c: Counter): Fired {
    if !c.irqReq && !c.mode.repeat then Fired(c, false)
    else
      var c1 := if c.irqReq then c.(fired := c.fired + 1) else c;
      Fired(c1.(irqReq := if c.mode.toggle then !c.irqReq else false), c.irqReq)
  }

  function WithFuture(t: nat): nat { if t >= FUTURE_TARGET then t else t + FUTURE_TARGET }

  /** `_rcntTestTarget`. */
  function TestTarget(c: Counter): Counter {
    if c.count < c.target then c
    else
      var f := FireInterrupt(c);
      var c1 := if !c.mode.intTarget then c else if f.ret then f.c.(hit := (true, c.hit.1)) else f.c;
      if c.mode.resetOnTarget then c1.(count := c.count - c.target) else c1.(target := WithFuture(c.target))
  }

  /** `_rcntTestOverflow`: without the repeat bit only the condition that is met first counts. */
  function TestOverflow(c: Counter): Counter {
    if c.count <= c.Max() then c
    else
      var f := FireInterrupt(c);
      var c1 := if !c.mode.intOverflow then c else if f.ret then f.c.(hit := (c.hit.0, true)) else f.c;
      var c2 := if c.mode.repeat then c1.(target := c.target % (c.Max() + 1))
                else (if c.target < FUTURE_TARGET then c1 else c).(target := WithFuture(c.target));
      c2.(count := c.count - c.Max())
  }

  /** Everything that can happen to a timer. */
  datatype Op =
    | Update(cycle: int)           // psxRcntUpdate
    | Hblank                       // counted by the EE's hblank
    | StartGate(cycle: int) | EndGate(cycle: int)
    | WriteCount(value: nat, cycle: int) | WriteTarget(value: nat, cycle: int)
    | WriteMode(mode: Mode, cycle: int)

  /** The first loop of `psxRcntUpdate`. */
  function Counted(c: Counter, cycle: int): Counter {
    var change := cycle - c.sCycleT;
    if c.stopped then c
    else
      var c1 := if c.mode.repeat && !c.mode.toggle then c.(irqReq := true) else c;
      if c.mode.hblank || change <= 0 then c1
      else c1.(count := c.count + change / c.mode.rate, sCycleT := cycle - change % c.mode.rate)
  }

  /** And the second. */
  function Tested(c: Counter): Counter {
    if c.mode.hblank || c.stopped then c else TestOverflow(TestTarget(c))
  }

  function Apply(c: Counter, op: Op): Counter {
    match op
    case Update(cycle) => Tested(Counted(c, cycle))
    case Hblank =>
      if c.mode.alt && (!c.mode.gateOn || !c.stopped) then TestOverflow(TestTarget(c.(count := c.count + 1))) else c
    case StartGate(cycle) =>
      if !c.mode.gateOn then c
      else if c.mode.gateMode == 0 then c.(count := c.Now(cycle) % (c.Max() + 1), stopped := true)
      else if c.mode.gateMode == 2 then c.(count := 0, sCycleT := cycle, stopped := false)
      else c
    case EndGate(cycle) =>
      if !c.mode.gateOn then c
      else if c.mode.gateMode == 2 then c.(count := c.Now(cycle) % (c.Max() + 1), stopped := true)
      else if c.mode.gateMode == 3 && !c.stopped then c
      else c.(count := 0, sCycleT := cycle, stopped := false)
    case WriteCount(value, cycle) =>
      var v := value % (c.Max() + 1);
      var change := if cycle < c.sCycleT then 0 else cycle - c.sCycleT;
      var c1 := c.(count := v, sCycleT := if c.mode.hblank then c.sCycleT else cycle - change % c.mode.rate);
      var t := if c.irqReq || c.mode.repeat then c.target % (c.Max() + 1) else c.target;
      c1.(target := if v > t then WithFuture(t) else t)
    case WriteTarget(value, cycle) =>
      var v := value % (c.Max() + 1);
      var armed := c.irqReq || (c.wide && !c.mode.toggle);
      c.(irqReq := armed, target := if v <= c.Now(cycle) || (!armed && !c.mode.repeat) then WithFuture(v) else v)
    case WriteMode(m, cycle) =>
      c.(count := 0, target := c.target % (c.Max() + 1), sCycleT := cycle, mode := m, irqReq := true, hit := (false, false),
         stopped := m.stopped)
  }

  /** What arms a timer: a mode write, and a target write to a wide timer in pulse mode. */
  predicate Arms(c: Counter, op: Op) { op.WriteMode? || (op.WriteTarget? && c.wide && !c.mode.toggle) }

  function ApplyAll(c: Counter, ops: seq<Op>): Counter
    decreases |ops|
  {
    if ops == [] then c else ApplyAll(Apply(c, ops[0]), ops[1..])
  }

  predicate Unarmed(c: Counter, ops: seq<Op>)
    decreases |ops|
  {
    ops == [] || (!Arms(c, ops[0]) && Unarmed(Apply(c, ops[0]), ops[1..]))
  }

  /** From c to d, every interrupt was paid for with the permission to fire. */
  predicate Paid(c: Counter, d: Counter) {
    && d.fired + One(d.irqReq) == c.fired + One(c.irqReq) && d.fired >= c.fired
    && d.mode == c.mode && d.wide == c.wide
  }

  lemma TestsPay(c: Counter)
    requires !c.mode.repeat
    ensures Paid(c, TestTarget(c)) && Paid(c, TestOverflow(c)) && Paid(c, TestOverflow(TestTarget(c)))
  {
    hide WithFuture, Counter.Max;
    var d := TestTarget(c);
    assert Paid(c, d) && Paid(d, TestOverflow(d));
  }

  /** A one-shot timer spends its permission with the interrupt, and gets none back unless it is armed. */
  lemma OneShotStep(c: Counter, op: Op)
    requires !c.mode.repeat && !Arms(c, op)
    ensures Paid(c, Apply(c, op))
  {
    hide WithFuture, Counter.Now, Counter.Max, TestTarget, TestOverflow;
    match op
    case Update(cycle) => TestsPay(Counted(c, cycle));
    case Hblank => TestsPay(c.(count := c.count + 1));
    case _ =>
  }

  /** One-shot timers fire at most once between arming writes, whatever updates, hblanks, gates and count
      writes come in between, and not at all if they have fired. */
  lemma {:induction false} OneShotFiresOnce(c: Counter, ops: seq<Op>)
    requires !c.mode.repeat && Unarmed(c, ops)
    ensures c.fired <= ApplyAll(c, ops).fired <= c.fired + One(c.irqReq)
    ensures ApplyAll(c, ops).fired == c.fired + One(c.irqReq) - One(ApplyAll(c, ops).irqReq)
    decreases |ops|
  {
    hide Apply, Arms;
    if ops != [] {
      OneShotStep(c, ops[0]);
      OneShotFiresOnce(Apply(c, ops[0]), ops[1..]);
    }
  }

  /** An arming write gives the permission back, and no other operation does. */
  lemma ArmingExactly(c: Counter, op: Op)
    requires !c.mode.repeat && !c.irqReq
    ensures Apply(c, op).irqReq <==> Arms(c, op)
  {
    hide WithFuture, Counter.Now, Counter.Max;
  }

  // ---- in place ----

  class IopTimers {
    const counters: array<Counter>
    var cycle: int

    constructor ()
      ensures fresh(counters) && counters.Length == 6
    {
      var mode := Mode(false, 0, false, false, false, false, false, false, 1, false, false);
      counters := new Counter[6](i => Counter(i >= 3, 0, FUTURE_TARGET, 0, mode, true, (false, false), false, 0));
      cycle := 0;
    }

    /** `_rcntFireInterrupt`. */
    method RcntFireInterrupt(i: nat) returns (ret: bool)
      requires i < counters.Length
      modifies counters
      ensures counters[..] == old(counters[..])[i := FireInterrupt(old(counters[i])).c]
      ensures ret == FireInterrupt(old(counters[i])).ret
    {
      if counters[i].irqReq {
        counters[i] := counters[i].(fired := counters[i].fired + 1);
        ret := true;
      } else {
        ret := false;
        if !counters[i].mode.repeat { return; }
      }
      if counters[i].mode.toggle {
        counters[i] := counters[i].(irqReq := !counters[i].irqReq);
      } else {
        counters[i] := counters[i].(irqReq := false);
      }
    }

    /** `_rcntTestTarget`. */
    method RcntTestTarget(i: nat)
      requires i < counters.Length
      modifies counters
      ensures counters[..] == old(counters[..])[i := TestTarget(old(counters[i]))]
    {
      hide FireInterrupt;
      if counters[i].count < counters[i].target { return; }
      ghost var c := counters[i];
      FireFrame(c);
      if counters[i].mode.intTarget {
        var fire := RcntFireInterrupt(i);
        if fire { counters[i] := counters[i].(hit := (true, counters[i].hit.1)); }
      }
      if counters[i].mode.resetOnTarget {
        counters[i] := counters[i].(count := counters[i].count - counters[i].target);
      } else {
        counters[i] := counters[i].(target := WithFuture(counters[i].target));
      }
    }

    static lemma FireFrame(c: Counter)
      ensures var d := FireInterrupt(c).c; d == c.(fired := d.fired, irqReq := d.irqReq)
    {}

    /** `_rcntTestOverflow`. */
    method RcntTestOverflow(i: nat)
      requires i < counters.Length
      modifies counters
      ensures counters[..] == old(counters[..])[i := TestOverflow(old(counters[i]))]
    {
      hide FireInterrupt, WithFuture;
      var maxTarget := counters[i].Max();
      if counters[i].count <= maxTarget { return; }
      FireFrame(counters[i]);
      if !counters[i].mode.repeat {
        if counters[i].target < FUTURE_TARGET {
          if counters[i].mode.intOverflow {
            var fire := RcntFireInterrupt(i);
            if fire { counters[i] := counters[i].(hit := (counters[i].hit.0, true)); }
          }
        }
        counters[i] := counters[i].(target := WithFuture(counters[i].target));
      } else {
        if counters[i].mode.intOverflow {
          var fire := RcntFireInterrupt(i);
          if fire { counters[i] := counters[i].(hit := (counters[i].hit.0, true)); }
        }
        counters[i] := counters[i].(target := counters[i].target % (maxTarget + 1));
      }
      counters[i] := counters[i].(count := counters[i].count - maxTarget);
    }

    /** The body of the counting loop of `psxRcntUpdate`. */
    method Count(i: nat)
      requires i < counters.Length
      modifies counters
      ensures counters[..] == old(counters[..])[i := Counted(old(counters[i]), cycle)]
    {
      var change := cycle - counters[i].sCycleT;
      if counters[i].stopped { return; }
      if counters[i].mode.repeat && !counters[i].mode.toggle { counters[i] := counters[i].(irqReq := true); }
      if !counters[i].mode.hblank && change > 0 {
        counters[i] := counters[i].(count := counters[i].count + change / counters[i].mode.rate,
                                    sCycleT := cycle - change % counters[i].mode.rate);
      }
    }

    /** The body of the testing loop. */
    method Test(i: nat)
      requires i < counters.Length
      modifies counters
      ensures counters[..] == old(counters[..])[i := Tested(old(counters[i]))]
    {
      hide TestTarget, TestOverflow;
      if counters[i].mode.hblank || counters[i].stopped { return; }
      RcntTestTarget(i);
      RcntTestOverflow(i);
    }

    /** The counting and testing loops of `psxRcntUpdate`. */
    method PsxRcntUpdate()
      modifies counters
      ensures forall i :: 0 <= i < counters.Length ==> counters[i] == Apply(old(counters[i]), Update(cycle))
    {
      hide Tested, Counted;
      ghost var cs := counters[..];
      var i := 0;
      while i < counters.Length
        invariant 0 <= i <= counters.Length
        invariant forall k :: 0 <= k < counters.Length ==> counters[..][k] == if k < i then Counted(cs[k], cycle) else cs[k]
      {
        Count(i);
        i := i + 1;
      }
      i := 0;
      while i < counters.Length
        invariant 0 <= i <= counters.Length
        invariant forall k :: 0 <= k < counters.Length ==>
                    counters[..][k] == if k < i then Tested(Counted(cs[k], cycle)) else Counted(cs[k], cycle)
      {
        Test(i);
        i := i + 1;
      }
      assert forall k :: 0 <= k < counters.Length ==> counters[k] == counters[..][k];
    }
  }
}
