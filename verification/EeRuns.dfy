/** A run from the reset state in which the gate of a timer opens at the end of a horizontal blank: its event
    is not scheduled, and the interrupt comes late. */
module EeRuns {
  import opened EeCounters

  /** Counts while no horizontal blank is on, with the target's interrupt enabled. */
  const GATED := Mode(true, false, 2, false, true, false, false, false, true, false, WhileLow)

  /** The counter of the run, right after its gate opened. */
  const OPENED := Counter(Cycles, 2, 0, 10, 0, false, true, false, false, false)

  ghost predicate JustOpened(cs: seq<Counter>) {
    && |cs| == 4 && cs[0] == OPENED
    && forall i :: 1 <= i < 4 ==> cs[i].clock == Stopped
  }

  /** An update at cycle 20 or later raises the interrupt. */
  lemma OneIrq(cs: seq<Counter>, now: int)
    requires JustOpened(cs) && 20 <= now <= 1000
    ensures IrqsOf(cs, 4, now) == [TargetIrq(0, now)]
  {
    assert Updated(OPENED, 0, now).irqs == [TargetIrq(0, now)] by {
      assert Counted(OPENED, now).count == now / 2 >= 10;
    }
    hide Counted;
    assert IrqsOf(cs, 1, now) == [] + [TargetIrq(0, now)];
    forall i: nat | 1 <= i < 4 ensures IrqsOf(cs, i + 1, now) == IrqsOf(cs, i, now) {
      assert Updated(cs[i], i, now).irqs == [];
    }
    assert IrqsOf(cs, 2, now) == IrqsOf(cs, 3, now) == IrqsOf(cs, 4, now);
  }

  lemma FiresAt20(cs: seq<Counter>, b: Bank)
    requires Stands(cs, b.timers, 0) && JustOpened(cs) && b.irqs == []
    ensures Run(b, 0, 20).irqs == [TargetIrq(0, 20)]
  {
    hide Stands, Run, IrqsOf;
    UpdateIsRun(cs, b, 0, 20);
    OneIrq(cs, 20);
  }

  /** The end of the blank. */
  const END := Edge(false, false, 0)

  /** The counter of the run at first, and with its target and mode. */
  const RESET := Counter(Stopped, 2, 0, 0xffff, 0, false, false, false, false, false)
  const CLOSED := Counter(Stopped, 2, 0, 10, 0, false, true, false, false, false)

  lemma ClosedIs()
    ensures EeTimers.Remoded(EeTimers.Retargeted(RESET, 10, 0), GATED, 0) == CLOSED
    ensures EeTimers.Kept(EeTimers.Retargeted(RESET, 10, 0), GATED, 0) && GATED.Clocked() == Stopped
  {}

  lemma OpenedIs()
    ensures AtEdge(CLOSED, GATED.GateOf(), END, 0) == OPENED && Timely(CLOSED, GATED.GateOf(), END, 0)
    ensures !InSchedule(CLOSED, GATED.GateOf(), END, 0, 1000)
  {}

  lemma NoGate(c: Counter)
    ensures AtEdge(c, Ungated, END, 0) == c && Timely(c, Ungated, END, 0)
  {}

  /** A timer waits behind its closed gate. */
  method BehindGate() returns (t: EeTimers)
    ensures fresh(t) && fresh(t.counters) && t.Valid() && t.cycle == 0 && t.irqs == [] && t.nextsCounter + t.nextCounter == 1000
    ensures t.gates == [GATED.GateOf(), Ungated, Ungated, Ungated]
    ensures t.counters[..][0] == CLOSED && forall i :: 1 <= i < 4 ==> t.counters[..][i].clock == Stopped
  {
    hide EeTimers.Remoded, EeTimers.Retargeted, EeTimers.Kept, EeTimers.Uncounted, WithMode, Counter.Ok, Counter.Due,
         Counter.At, Mode.Clocked, Mode.GateOf;
    t := new EeTimers(0, 1000);
    ClosedIs();
    t.RcntWtarget(0, 10);
    t.RcntWmode(0, GATED);
  }

  /** The hardware raises the target's interrupt at cycle 20.  The next update is scheduled for cycle 1000, and
      raises it then. */
  method OpenedTooLate() returns (t: EeTimers)
    ensures fresh(t) && t.cycle == 0 && t.irqs == [] && t.nextsCounter + t.nextCounter == 1000
    ensures JustOpened(t.counters[..]) && !t.Valid()
    ensures Run(t.bank, 0, 20).irqs == [TargetIrq(0, 20)]
    ensures IrqsOf(t.counters[..], 4, 1000) == [TargetIrq(0, 1000)]
  {
    hide AtEdge, WithEdge, Timely, Run, IrqsOf, Counter.Ok, Counter.Due, Counter.At, InSchedule, Mode.GateOf;
    t := BehindGate();
    OpenedIs();
    ghost var cs, b := t.counters[..], t.bank;
    forall i | 1 <= i < 4 ensures AtEdge(cs[i], t.gates[i], END, 0) == cs[i] && Timely(cs[i], t.gates[i], END, 0) {
      NoGate(cs[i]);
    }
    EdgesStand(cs, b, t.gates, END, 0);
    t.EndHblank(0);
    FiresAt20(t.counters[..], t.bank);
    OneIrq(t.counters[..], 1000);
  }
}
