/** The four timers of the EE: the emulator brings them up to date only at events, and schedules the
    next event so that none is missed.  The specification is a bank of timers stepped cycle by cycle. */
module EeCounters {
  import opened Arith

  const FUTURE_TARGET := 0x1000_0000

  // ---- the specification ----

  /** What a timer counts: nothing, cycles divided by its rate, or horizontal blanks. */
  datatype Clock = Stopped | Cycles | Hblanks

  /** Cycles per count. */
  type Rate = r: int | r > 0 witness 1

  /** A timer as the hardware runs it: `phase` counts cycles up to `rate`, `past` means that the target
      was already reached since the last overflow. */
  datatype Timer = Timer(clock: Clock, rate: Rate, count: nat, phase: nat, target: nat, past: bool, zeroReturn: bool,
                         targetInt: bool, overflowInt: bool, targetReached: bool, overflowReached: bool)

  datatype Irq = TargetIrq(index: nat, cycle: int) | OverflowIrq(index: nat, cycle: int)

  datatype Stepped<T> = Stepped(it: T, irqs: seq<Irq>)

  /** The count goes up by one. */
  function Tick(x: Timer, i: nat, now: int): Stepped<Timer> {
    var x1 := x.(count := x.count + 1, phase := 0);
    if x1.count == x1.target && !x1.past then
      var x2 := if x1.zeroReturn then x1.(count := 0) else x1.(past := true);
      if x.targetInt && !x.targetReached then Stepped(x2.(targetReached := true), [TargetIrq(i, now)]) else Stepped(x2, [])
    else if x1.count == 0x10000 then
      var x2 := x1.(count := 0, past := false);
      if x.overflowInt && !x.overflowReached then Stepped(x2.(overflowReached := true), [OverflowIrq(i, now)]) else Stepped(x2, [])
    else Stepped(x1, [])
  }

  /** One cycle, the one that ends at `now`. */
  function Cycle(x: Timer, i: nat, now: int): Stepped<Timer> {
    if x.clock != Cycles then Stepped(x, [])
    else if x.phase + 1 < x.rate then Stepped(x.(phase := x.phase + 1), [])
    else Tick(x, i, now)
  }

  datatype Bank = Bank(timers: seq<Timer>, irqs: seq<Irq>)

  function CycleFrom(b: Bank, i: nat, now: int): (r: Bank)
    requires i <= |b.timers|
    ensures |r.timers| == |b.timers|
    decreases |b.timers| - i
  {
    if i == |b.timers| then b
    else
      var s := Cycle(b.timers[i], i, now);
      CycleFrom(Bank(b.timers[i := s.it], b.irqs + s.irqs), i + 1, now)
  }

  /** A horizontal blank at cycle `now`: the timers that count them, from timer i on. */
  function HblankFrom(b: Bank, i: nat, now: int): (r: Bank)
    requires i <= |b.timers|
    ensures |r.timers| == |b.timers|
    decreases |b.timers| - i
  {
    if i == |b.timers| then b
    else
      var s := if b.timers[i].clock == Hblanks then Tick(b.timers[i], i, now) else Stepped(b.timers[i], []);
      HblankFrom(Bank(b.timers[i := s.it], b.irqs + s.irqs), i + 1, now)
  }

  /** n cycles after cycle `from`. */
  function Run(b: Bank, from: int, n: nat): (r: Bank)
    ensures |r.timers| == |b.timers|
  {
    if n == 0 then b else CycleFrom(Run(b, from, n - 1), 0, from + n)
  }

  // ---- the emulator's counters ----

  /** A counter: `count` was right at cycle sCycleT, and `target` carries the future-target bit. */
  datatype Counter = Counter(clock: Clock, rate: Rate, count: nat, target: nat, sCycleT: int, zeroReturn: bool,
                             targetInt: bool, overflowInt: bool, targetReached: bool, overflowReached: bool)
  {
    predicate Running() { clock == Cycles }

    predicate IsFuture() { target >= FUTURE_TARGET }

    function Target(): nat { target % 0x10000 }

    /** Counts up to the next event. */
    function Ahead(): int { (if IsFuture() then 0x10000 else target) - count }

    /** The cycle of the next event. */
    function Due(): int { sCycleT + rate * Ahead() }

    /** What holds at cycle `now`: the next event is still to come. */
    ghost predicate Ok(now: int) {
      && sCycleT <= now && count < 0x10000 && Target() > 0
      && (IsFuture() ==> target < FUTURE_TARGET + 0x10000) && (!IsFuture() ==> target < 0x10000)
      && (clock != Stopped ==> Ahead() > 0) && (Running() ==> now < Due())
    }

    /** Whole counts since sCycleT. */
    function Elapsed(now: int): nat {
      if sCycleT <= now then (now - sCycleT) / rate else 0
    }

    /** The timer that the counter stands for. */
    function At(now: int): Timer {
      Timer(clock, rate, if Running() then count + Elapsed(now) else count,
            if Running() && sCycleT <= now then (now - sCycleT) % rate else 0,
            Target(), IsFuture(), zeroReturn, targetInt, overflowInt, targetReached, overflowReached)
    }
  }

  /** `_cpuTestTarget`. */
  function TestTarget(c: Counter, i: nat, now: int): Stepped<Counter> {
    if c.count < c.target then Stepped(c, [])
    else
      var fires := c.targetInt && !c.targetReached;
      var c1 := if fires then c.(targetReached := true) else c;
      var c2 := if c.zeroReturn then c1.(count := c.count - c.target)
                else if c.IsFuture() then c1 else c1.(target := c.target + FUTURE_TARGET);
      Stepped(c2, if fires then [TargetIrq(i, now)] else [])
  }

  /** `_cpuTestOverflow`. */
  function TestOverflow(c: Counter, i: nat, now: int): Stepped<Counter> {
    if c.count <= 0xffff then Stepped(c, [])
    else
      var fires := c.overflowInt && !c.overflowReached;
      var c1 := if fires then c.(overflowReached := true) else c;
      Stepped(c1.(count := c.count - 0x10000, target := c.Target()), if fires then [OverflowIrq(i, now)] else [])
  }

  /** The counting part of `rcntUpdate`: whole ticks go to the count, the rest stays in sCycleT. */
  function Counted(c: Counter, now: int): Counter
  {
    var change := if now - c.sCycleT < 0 then 0 else now - c.sCycleT;
    c.(count := c.count + change / c.rate, sCycleT := now - (change - change / c.rate * c.rate))
  }

  /** What `rcntStartGate` does at a horizontal blank to one counter, before its gate. */
  function Blanked(c: Counter, i: nat, now: int): Stepped<Counter> {
    if c.clock != Hblanks then Stepped(c, [])
    else
      var a := TestTarget(c.(count := c.count + 1), i, now);
      var b := TestOverflow(a.it, i, now);
      Stepped(b.it, a.irqs + b.irqs)
  }

  /** `rcntUpdate` for one counter. */
  function Updated(c: Counter, i: nat, now: int): Stepped<Counter> {
    if c.clock == Stopped then Stepped(c, [])
    else if c.clock == Hblanks then Stepped(c.(sCycleT := now), [])
    else
      var a := TestTarget(Counted(c, now), i, now);
      var b := TestOverflow(a.it, i, now);
      Stepped(b.it, a.irqs + b.irqs)
  }

  // ---- one counter against one timer ----

  lemma CountedIs(c: Counter, now: int)
    requires c.sCycleT <= now
    ensures var d := Counted(c, now);
            && d.count == c.count + c.Elapsed(now) && now - d.sCycleT == (now - c.sCycleT) % c.rate
            && d.sCycleT <= now && d == c.(count := d.count, sCycleT := d.sCycleT)
    ensures (now - Counted(c, now).sCycleT) / c.rate == 0 && (now - Counted(c, now).sCycleT) % c.rate == (now - c.sCycleT) % c.rate
  {
    var e := now - c.sCycleT;
    assert e == c.rate * (e / c.rate) + e % c.rate;
    DivModOf(c.rate, 0, e % c.rate);
  }

  /** Before its event, a counter advances by itself exactly as the timer does. */
  lemma QuietCycle(c: Counter, i: nat, now: int)
    requires c.Ok(now - 1) && (c.Running() ==> now < c.Due())
    ensures c.Ok(now) && Cycle(c.At(now - 1), i, now) == Stepped(c.At(now), [])
  {
    if c.Running() {
      DivStep(now - 1 - c.sCycleT, c.rate);
      DivBelow(now - c.sCycleT, c.rate, c.Ahead());
    }
  }

  /** Before the event, an update only moves whole ticks into the count. */
  lemma QuietUpdate(c: Counter, i: nat, now: int)
    requires c.Ok(now) && c.Running()
    ensures var u := Updated(c, i, now);
            u == Stepped(Counted(c, now), []) && u.it.At(now) == c.At(now) && u.it.Ok(now)
  {
    CountedIs(c, now);
    DivBelow(now - c.sCycleT, c.rate, c.Ahead());
    var d := Counted(c, now);
    hide Counted, Counter.Due, Counter.At, Counter.Elapsed;
    assert d.count < if c.IsFuture() then 0x10000 else c.target by { BelowLimit(c, now); }
    SameAt(c, d, now);
    DueMoves(c, d, now);
  }

  lemma BelowLimit(c: Counter, now: int)
    requires c.Ok(now) && c.Running()
    ensures c.count + c.Elapsed(now) < if c.IsFuture() then 0x10000 else c.target
  {
    DivBelow(now - c.sCycleT, c.rate, c.Ahead());
  }

  lemma SameAt(c: Counter, d: Counter, now: int)
    requires c.Running() && c.sCycleT <= now && d.sCycleT <= now
    requires d == c.(count := c.count + c.Elapsed(now), sCycleT := d.sCycleT)
    requires (now - d.sCycleT) / c.rate == 0 && (now - d.sCycleT) % c.rate == (now - c.sCycleT) % c.rate
    ensures d.At(now) == c.At(now)
  {}

  /** Counting moves the start of a counter, not its next event. */
  lemma DueMoves(c: Counter, d: Counter, now: int)
    requires c.sCycleT <= now
    requires d == c.(count := c.count + c.Elapsed(now), sCycleT := d.sCycleT) && now - d.sCycleT == (now - c.sCycleT) % c.rate
    ensures d.Due() == c.Due()
  {
    var k := c.Elapsed(now);
    assert now - c.sCycleT == c.rate * k + (now - c.sCycleT) % c.rate;
    MulDistributes(c.rate, c.Ahead(), k);
    assert d.Ahead() == c.Ahead() - k;
  }

  /** At the cycle of the event, the count is exactly at its limit, with no cycle left over. */
  lemma AtLimit(c: Counter, now: int)
    requires c.Ok(now - 1) && c.Running() && now == c.Due()
    ensures Counted(c, now) == c.(count := if c.IsFuture() then 0x10000 else c.target, sCycleT := now)
    ensures var x := c.At(now - 1); x.count + 1 == Counted(c, now).count && x.phase + 1 == c.rate
  {
    var e := now - c.sCycleT;
    DivBelow(e, c.rate, c.Ahead());
    DivBelow(e - 1, c.rate, c.Ahead());
    DivStep(e - 1, c.rate);
    CountedIs(c, now);
  }

  lemma TargetBits(t: nat)
    requires t < 0x10000
    ensures t % 0x10000 == t && (t + FUTURE_TARGET) % 0x10000 == t
  {}

  /** What a counter stands for right after an update with no cycle left over. */
  lemma AtUpdate(c: Counter, now: int)
    requires c.Running() && c.sCycleT == now && c.Ahead() > 0
    ensures now < c.Due()
    ensures c.At(now) == Timer(Cycles, c.rate, c.count, 0, c.Target(), c.IsFuture(), c.zeroReturn, c.targetInt, c.overflowInt,
                               c.targetReached, c.overflowReached)
  {
    NothingElapsed(c, now);
    DueLater(c, now);
  }

  lemma TargetEvent(d: Counter, i: nat, now: int)
    requires d.Running() && d.sCycleT == now && 0 < d.target < 0x10000 && d.count == d.target
    ensures var u := TestTarget(d, i, now); var v := TestOverflow(u.it, i, now);
            var x := d.At(now);
            && v == Stepped(u.it, []) && v.it.Ok(now)
            && Tick(x.(count := x.count - 1, phase := x.rate - 1), i, now) == Stepped(v.it.At(now), u.irqs)
  {
    hide Counter.At, Counter.Due, Counter.Elapsed;
    TargetBits(d.target);
    AtUpdate(d.(count := d.count - 1), now);
    NothingElapsed(d, now);
    AtFields(d, now);
    AtUpdate(TestTarget(d, i, now).it, now);
  }

  lemma OverflowEvent(d: Counter, i: nat, now: int)
    requires d.Running() && d.sCycleT == now && d.count == 0x10000 && d.Target() > 0
    requires FUTURE_TARGET <= d.target < FUTURE_TARGET + 0x10000
    ensures var u := TestTarget(d, i, now); var v := TestOverflow(u.it, i, now);
            var x := d.At(now);
            && u == Stepped(d, []) && v.it.Ok(now)
            && Tick(x.(count := x.count - 1, phase := x.rate - 1), i, now) == Stepped(v.it.At(now), v.irqs)
  {
    hide Counter.At, Counter.Due, Counter.Elapsed;
    TargetBits(d.target - FUTURE_TARGET);
    NothingElapsed(d, now);
    AtFields(d, now);
    AtUpdate(TestOverflow(d, i, now).it, now);
  }

  lemma AtFields(c: Counter, now: int)
    requires c.sCycleT <= now
    ensures var x := c.At(now);
            x == Timer(c.clock, c.rate, x.count, x.phase, c.Target(), c.IsFuture(), c.zeroReturn, c.targetInt, c.overflowInt,
                       c.targetReached, c.overflowReached)
  {}

  /** The two tests at the event do what the timer's tick does. */
  lemma EventUpdate(c: Counter, i: nat, now: int)
    requires c.Ok(now - 1) && c.Running() && now == c.Due()
    ensures var u := Updated(c, i, now);
            u.it.Ok(now) && Cycle(c.At(now - 1), i, now) == Stepped(u.it.At(now), u.irqs)
  {
    hide Counter.Due, Counted, Counter.Elapsed, Tick, TestTarget, TestOverflow, Counter.At, Counter.Target;
    AtLimit(c, now);
    var d := Counted(c, now);
    var x := c.At(now - 1);
    AtFields(c, now - 1);
    AtFields(d, now);
    NothingElapsed(d, now);
    assert d.Target() == c.Target() by { SameTarget(c, d); }
    var y := d.At(now);
    assert x == y.(count := y.count - 1, phase := y.rate - 1);
    assert Cycle(x, i, now) == Tick(x, i, now);
    if c.IsFuture() { OverflowEvent(d, i, now); } else { TargetEvent(d, i, now); }
  }

  lemma SameTarget(c: Counter, d: Counter)
    requires c.target == d.target
    ensures c.Target() == d.Target()
  {}

  lemma NothingElapsed(c: Counter, now: int)
    requires c.sCycleT == now
    ensures c.At(now).count == c.count && c.At(now).phase == 0
  {}

  lemma DueLater(c: Counter, now: int)
    requires c.sCycleT == now && c.Ahead() > 0
    ensures now < c.Due()
  {
    MulAtLeast(c.rate, c.Ahead());
  }

  /** Updates mean nothing to a counter that counts blanks. */
  lemma BlanksIdle(c: Counter, now: int)
    requires c.clock == Hblanks && c.Ok(now)
    ensures var d := c.(sCycleT := now); d.Ok(now) && d.At(now) == c.At(now)
  {}

  /** An update at or before the event is the timer's cycle. */
  lemma UpdateIsCycle(c: Counter, i: nat, now: int)
    requires c.Ok(now - 1) && (c.Running() ==> now <= c.Due())
    ensures var u := Updated(c, i, now);
            u.it.Ok(now) && Cycle(c.At(now - 1), i, now) == Stepped(u.it.At(now), u.irqs)
  {
    hide Counted, Cycle, Counter.At;
    if !c.Running() || now < c.Due() {
      QuietCycle(c, i, now);
      if c.Running() { QuietUpdate(c, i, now); }
      if c.clock == Hblanks { BlanksIdle(c, now); }
    } else {
      EventUpdate(c, i, now);
    }
  }

  /** Runs of the bank compose: any number of updates, one after the other, is one run. */
  lemma {:induction false} RunTwice(b: Bank, from: int, n: nat, m: nat)
    ensures Run(b, from, n + m) == Run(Run(b, from, n), from + n, m)
    decreases m
  {
    hide CycleFrom;
    if m > 0 { RunTwice(b, from, n, m - 1); }
  }

  /** A counter that counts blanks stands for the same timer at any cycle. */
  lemma BlanksAt(c: Counter, now: int)
    requires c.clock == Hblanks
    ensures c.At(now) == Timer(Hblanks, c.rate, c.count, 0, c.Target(), c.IsFuture(), c.zeroReturn, c.targetInt, c.overflowInt,
                               c.targetReached, c.overflowReached)
  {}

  /** At a horizontal blank, a counter that counts them does what the timer's tick does. */
  lemma BlankIsTick(c: Counter, i: nat, now: int)
    requires c.Ok(now) && c.clock == Hblanks
    ensures var u := Blanked(c, i, now);
            u.it.Ok(now) && u.it.clock == Hblanks && Tick(c.At(now), i, now) == Stepped(u.it.At(now), u.irqs)
  {
    hide Counter.Due, Counter.At, Counter.Elapsed, Counter.Target, Counter.Ok, Blanked;
    OkBlanks(c, now);
    BlankIs(c, i, now);
    BlanksAt(c, now);
    var u := Blanked(c, i, now);
    BlanksOk(u.it, now, c.Target());
    BlanksAt(u.it, now);
  }

  /** The three things that a blank can do. */
  lemma BlankIs(c: Counter, i: nat, now: int)
    requires c.Ok(now) && c.clock == Hblanks
    ensures var u := Blanked(c, i, now); var n := c.count + 1; var d := c.(count := n);
            if !c.IsFuture() && n == c.target then
              var e := if c.zeroReturn then d.(count := 0) else d.(target := c.target + FUTURE_TARGET);
              if c.targetInt && !c.targetReached then u == Stepped(e.(targetReached := true), [TargetIrq(i, now)]) else u == Stepped(e, [])
            else if n == 0x10000 then
              var e := d.(count := 0, target := c.Target());
              if c.overflowInt && !c.overflowReached then u == Stepped(e.(overflowReached := true), [OverflowIrq(i, now)])
              else u == Stepped(e, [])
            else u == Stepped(d, [])
  {
    hide Counter.Due, Counter.At, Counter.Elapsed, Counter.Target, Counter.Ok;
    OkBlanks(c, now);
    SameTarget(c, c.(count := c.count + 1));
  }

  lemma OkBlanks(c: Counter, now: int)
    requires c.Ok(now) && c.clock == Hblanks
    ensures c.sCycleT <= now && c.count < 0x10000 && 0 < c.Target() < 0x10000 && c.Ahead() > 0
    ensures c.target == c.Target() + if c.IsFuture() then FUTURE_TARGET else 0
  {
    TargetBits(if c.IsFuture() then c.target - FUTURE_TARGET else c.target);
  }

  lemma BlanksOk(c: Counter, now: int, target: nat)
    requires c.clock == Hblanks && c.sCycleT <= now && c.count < 0x10000 && 0 < target < 0x10000 && c.Ahead() > 0
    requires c.target == target || c.target == target + FUTURE_TARGET
    ensures c.Ok(now) && c.Target() == target
  {
    TargetBits(target);
  }

  // ---- the bank ----

  ghost predicate Stands(cs: seq<Counter>, timers: seq<Timer>, now: int) {
    && |cs| == |timers|
    && forall i :: 0 <= i < |cs| ==> cs[i].Ok(now) && timers[i] == cs[i].At(now)
  }

  /** The interrupts that updates of the first k counters raise. */
  function IrqsOf(cs: seq<Counter>, k: nat, now: int): seq<Irq>
    requires k <= |cs|
  {
    if k == 0 then [] else IrqsOf(cs, k - 1, now) + Updated(cs[k - 1], k - 1, now).irqs
  }

  function UpdatedAll(cs: seq<Counter>, now: int): (us: seq<Counter>)
    ensures |us| == |cs| && forall i :: 0 <= i < |cs| ==> us[i] == Updated(cs[i], i, now).it
  {
    seq(|cs|, i requires 0 <= i < |cs| => Updated(cs[i], i, now).it)
  }

  ghost predicate InTime(cs: seq<Counter>, now: int) {
    forall i :: 0 <= i < |cs| ==> cs[i].Running() ==> now <= cs[i].Due()
  }

  lemma MoreIrqs(a: seq<Irq>, b: seq<Irq>, c: seq<Irq>)
    ensures a + b + c == a + (b + c)
  {}

  /** A cycle of the bank, from timer i on, when the counters before it are updated already. */
  lemma {:induction false} CycleFromUpdates(cs: seq<Counter>, b: Bank, i: nat, now: int, irqs: seq<Irq>)
    requires |b.timers| == |cs| && i <= |cs| && InTime(cs, now)
    requires forall j :: 0 <= j < |cs| ==> cs[j].Ok(now - 1)
    requires forall j :: 0 <= j < i ==> b.timers[j] == Updated(cs[j], j, now).it.At(now)
    requires forall j :: i <= j < |cs| ==> b.timers[j] == cs[j].At(now - 1)
    requires b.irqs == irqs + IrqsOf(cs, i, now)
    ensures var r := CycleFrom(b, i, now);
            Stands(UpdatedAll(cs, now), r.timers, now) && r.irqs == irqs + IrqsOf(cs, |cs|, now)
    decreases |cs| - i
  {
    hide Counter.At, Counter.Due, Cycle, Updated, Counter.Ok;
    forall j | 0 <= j < |cs| ensures Updated(cs[j], j, now).it.Ok(now) { UpdateIsCycle(cs[j], j, now); }
    if i < |cs| {
      UpdateIsCycle(cs[i], i, now);
      var s := Cycle(b.timers[i], i, now);
      MoreIrqs(irqs, IrqsOf(cs, i, now), s.irqs);
      CycleFromUpdates(cs, Bank(b.timers[i := s.it], b.irqs + s.irqs), i + 1, now, irqs);
    }
  }

  /** A cycle before every event: nothing happens but time. */
  lemma {:induction false} QuietCycleFrom(cs: seq<Counter>, b: Bank, i: nat, now: int)
    requires |b.timers| == |cs| && i <= |cs|
    requires forall j :: 0 <= j < |cs| ==> cs[j].Ok(now - 1) && (cs[j].Running() ==> now < cs[j].Due())
    requires forall j :: 0 <= j < |cs| ==> b.timers[j] == cs[j].At(if j < i then now else now - 1)
    ensures var r := CycleFrom(b, i, now); Stands(cs, r.timers, now) && r.irqs == b.irqs
    decreases |cs| - i
  {
    hide Counter.At, Counter.Due, Cycle, Counter.Ok;
    forall j | 0 <= j < |cs| ensures cs[j].Ok(now) { QuietCycle(cs[j], j, now); }
    if i < |cs| {
      QuietCycle(cs[i], i, now);
      var s := Cycle(b.timers[i], i, now);
      QuietCycleFrom(cs, Bank(b.timers[i := s.it], b.irqs + s.irqs), i + 1, now);
    }
  }

  /** Any number of cycles before every event. */
  lemma {:induction false} QuietRun(cs: seq<Counter>, b: Bank, from: int, n: nat)
    requires Stands(cs, b.timers, from)
    requires forall j :: 0 <= j < |cs| ==> cs[j].Running() ==> from + n < cs[j].Due()
    ensures var r := Run(b, from, n); Stands(cs, r.timers, from + n) && r.irqs == b.irqs
    decreases n
  {
    hide Counter.At, Counter.Due, CycleFrom, Counter.Ok;
    if n > 0 {
      QuietRun(cs, b, from, n - 1);
      QuietCycleFrom(cs, Run(b, from, n - 1), 0, from + n);
    }
  }

  /** Updating n cycles later, but not after the next event, gives the counters and the interrupts that
      n cycles of the bank give. */
  lemma UpdateIsRun(cs: seq<Counter>, b: Bank, from: int, n: nat)
    requires Stands(cs, b.timers, from) && InTime(cs, from + n)
    ensures var r := Run(b, from, n);
            Stands(UpdatedAll(cs, from + n), r.timers, from + n) && r.irqs == b.irqs + IrqsOf(cs, |cs|, from + n)
  {
    hide Counter.At, Counter.Due, CycleFrom, Counter.Ok, Updated;
    if n == 0 {
      NothingUpdated(cs, b, from, |cs|);
      assert b.irqs + [] == b.irqs;
    } else {
      QuietRun(cs, b, from, n - 1);
      assert b.irqs + [] == b.irqs;
      CycleFromUpdates(cs, Run(b, from, n - 1), 0, from + n, b.irqs);
    }
  }

  lemma {:induction false} NothingUpdated(cs: seq<Counter>, b: Bank, now: int, k: nat)
    requires Stands(cs, b.timers, now) && k <= |cs|
    ensures IrqsOf(cs, k, now) == []
    ensures Stands(UpdatedAll(cs, now), b.timers, now)
  {
    hide Counter.At, Counter.Due, Counter.Ok, Counted, Updated;
    forall j | 0 <= j < |cs|
      ensures Updated(cs[j], j, now).irqs == []
      ensures Updated(cs[j], j, now).it.At(now) == cs[j].At(now) && Updated(cs[j], j, now).it.Ok(now)
    {
      NoUpdate(cs[j], j, now);
    }
    if k > 0 { NothingUpdated(cs, b, now, k - 1); }
  }

  // ---- horizontal blanks ----

  /** The interrupts that a blank raises in the first k counters. */
  function BlankIrqs(cs: seq<Counter>, k: nat, now: int): seq<Irq>
    requires k <= |cs|
  {
    if k == 0 then [] else BlankIrqs(cs, k - 1, now) + Blanked(cs[k - 1], k - 1, now).irqs
  }

  function BlankedAll(cs: seq<Counter>, now: int): (us: seq<Counter>)
    ensures |us| == |cs| && forall i :: 0 <= i < |cs| ==> us[i] == Blanked(cs[i], i, now).it
  {
    seq(|cs|, i requires 0 <= i < |cs| => Blanked(cs[i], i, now).it)
  }

  lemma BlankStands(c: Counter, i: nat, now: int)
    requires c.Ok(now)
    ensures var u := Blanked(c, i, now); var x := c.At(now);
            u.it.Ok(now) && Stepped(u.it.At(now), u.irqs) == if x.clock == Hblanks then Tick(x, i, now) else Stepped(x, [])
  {
    hide Counter.Due, Counter.Elapsed, Tick, Counter.Ok;
    if c.clock == Hblanks { BlankIsTick(c, i, now); }
  }

  lemma AllBlanked(cs: seq<Counter>, timers: seq<Timer>, now: int)
    requires |timers| == |cs| && forall j :: 0 <= j < |cs| ==> cs[j].Ok(now) && timers[j] == Blanked(cs[j], j, now).it.At(now)
    ensures Stands(BlankedAll(cs, now), timers, now)
  {
    hide Counter.At, Counter.Due, Tick, Blanked, Counter.Ok;
    forall j | 0 <= j < |cs| ensures Blanked(cs[j], j, now).it.Ok(now) { BlankStands(cs[j], j, now); }
  }

  /** A blank in the counters is the blank in the bank, interrupts included. */
  lemma {:induction false} BlanksAreTicks(cs: seq<Counter>, b: Bank, i: nat, now: int, irqs: seq<Irq>)
    requires |b.timers| == |cs| && i <= |cs|
    requires forall j :: 0 <= j < |cs| ==> cs[j].Ok(now)
    requires forall j :: 0 <= j < |cs| ==> b.timers[j] == (if j < i then Blanked(cs[j], j, now).it else cs[j]).At(now)
    requires b.irqs == irqs + BlankIrqs(cs, i, now)
    ensures var r := HblankFrom(b, i, now);
            Stands(BlankedAll(cs, now), r.timers, now) && r.irqs == irqs + BlankIrqs(cs, |cs|, now)
    decreases |cs| - i
  {
    hide Counter.At, Counter.Due, Tick, Blanked, Counter.Ok, Stands;
    if i == |cs| {
      AllBlanked(cs, b.timers, now);
    } else {
      BlankStands(cs[i], i, now);
      var u := Blanked(cs[i], i, now);
      MoreIrqs(irqs, BlankIrqs(cs, i, now), u.irqs);
      BlanksAreTicks(cs, Bank(b.timers[i := u.it.At(now)], b.irqs + u.irqs), i + 1, now, irqs);
    }
  }

  // ---- any number of updates ----

  /** Updates that come ns[0], then ns[1], .. cycles after one another. */
  function Updates(cs: seq<Counter>, now: int, ns: seq<nat>): seq<Counter>
    decreases |ns|
  {
    if ns == [] then cs else Updates(UpdatedAll(cs, now + ns[0]), now + ns[0], ns[1..])
  }

  function UpdateIrqs(cs: seq<Counter>, now: int, ns: seq<nat>): seq<Irq>
    decreases |ns|
  {
    if ns == [] then []
    else IrqsOf(cs, |cs|, now + ns[0]) + UpdateIrqs(UpdatedAll(cs, now + ns[0]), now + ns[0], ns[1..])
  }

  /** None of them comes after the next event. */
  ghost predicate AllInTime(cs: seq<Counter>, now: int, ns: seq<nat>)
    decreases |ns|
  {
    ns == [] || (InTime(cs, now + ns[0]) && AllInTime(UpdatedAll(cs, now + ns[0]), now + ns[0], ns[1..]))
  }

  /** However the time is cut into updates, the counters and all interrupts are those of one run of the
      bank over all of it: nothing drifts. */
  lemma {:induction false} ManyUpdates(cs: seq<Counter>, b: Bank, from: int, ns: seq<nat>)
    requires Stands(cs, b.timers, from) && AllInTime(cs, from, ns)
    ensures var r := Run(b, from, Sum(ns));
            Stands(Updates(cs, from, ns), r.timers, from + Sum(ns)) && r.irqs == b.irqs + UpdateIrqs(cs, from, ns)
    decreases |ns|
  {
    hide CycleFrom, Stands, InTime, Run, IrqsOf, Updated;
    if ns == [] {
      NoRun(b, from);
      assert b.irqs + [] == b.irqs;
    } else {
      var at := from + ns[0];
      UpdateIsRun(cs, b, from, ns[0]);
      var r := Run(b, from, ns[0]);
      ManyUpdates(UpdatedAll(cs, at), r, at, ns[1..]);
      RunTwice(b, from, ns[0], Sum(ns[1..]));
      var more := UpdateIrqs(UpdatedAll(cs, at), at, ns[1..]);
      assert b.irqs + IrqsOf(cs, |cs|, at) + more == b.irqs + (IrqsOf(cs, |cs|, at) + more);
    }
  }

  lemma NoRun(b: Bank, from: int)
    ensures Run(b, from, 0) == b
  {}

  /** Register writes, as the hardware takes them: a new count or target starts a new comparison. */
  function WithCount(x: Timer, v: nat): Timer { x.(count := v, past := v > x.target) }

  function WithTarget(x: Timer, v: nat): Timer { x.(target := v, past := v <= x.count) }

  // ---- gates ----

  /** When a gate lets a timer count: while its signal is low, or from a reset at one or both of its edges. */
  datatype GateMode = WhileLow | FromStart | FromEnd | FromBoth

  /** A timer's gate, if it is enabled: the blank that drives it and what the timer counts when it is open. */
  datatype Gate = Ungated | Gated(vblank: bool, mode: GateMode, source: Clock)

  /** The start or the end of a blank, with the cycle that the caller takes for it. */
  datatype Edge = Edge(vblank: bool, start: bool, sCycle: int)

  /** What an edge is to a gate. */
  datatype Effect = Nothing | Close | Open | Restart

  function EffectOf(g: Gate, e: Edge): Effect {
    if !g.Gated? || g.vblank != e.vblank then Nothing
    else match g.mode
      case WhileLow => if e.start then Close else Open
      case FromStart => if e.start then Restart else Nothing
      case FromEnd => if e.start then Nothing else Restart
      case FromBoth => Restart
  }

  /** A timer after e uncounted cycles at its rate. */
  function Late(x: Timer, e: nat): Timer {
    if x.clock == Cycles then x.(count := x.count + e / x.rate, phase := e % x.rate) else x.(phase := 0)
  }

  /** A restarted timer counts from the cycle of the edge. */
  function WithEdge(x: Timer, g: Gate, e: Edge, now: int): Timer
    requires e.sCycle <= now
  {
    match EffectOf(g, e)
    case Nothing => x
    case Close => x.(clock := Stopped, phase := 0)
    case Open => x.(clock := g.source, phase := 0)
    case Restart => Late(x.(clock := g.source, count := 0, past := false), now - e.sCycle)
  }

  /** `rcntStartGate` and `rcntEndGate` on one counter. */
  function AtEdge(c: Counter, g: Gate, e: Edge, now: int): Counter {
    match EffectOf(g, e)
    case Nothing => c
    case Close => c.(clock := Stopped, count := c.At(now).count, sCycleT := e.sCycle)
    case Open => c.(clock := g.source, sCycleT := now)
    case Restart => c.(clock := g.source, count := 0, target := c.Target(), sCycleT := e.sCycle)
  }

  /** An opened counter goes on from the count that it was closed with, which is not its target or more; the
      target of a restarted one is more than what was counted since the cycle taken for the edge. */
  predicate Timely(c: Counter, g: Gate, e: Edge, now: int) {
    match EffectOf(g, e)
    case Open =>
      && (c.Running() ==> c.Elapsed(now) == 0)
      && (g.source != Stopped ==> c.Ahead() > 0)
    case Restart => g.source == Cycles ==> now < e.sCycle + c.rate * c.Target()
    case _ => true
  }

  /** At an edge, the counter stands for the hardware's timer with its event still ahead exactly if it is
      timely. */
  lemma EdgeStands(c: Counter, g: Gate, e: Edge, now: int)
    requires c.Ok(now) && e.sCycle <= now
    ensures var d := AtEdge(c, g, e, now);
            d.Ok(now) && d.At(now) == WithEdge(c.At(now), g, e, now) <==> Timely(c, g, e, now)
  {
    match EffectOf(g, e) {
      case Nothing =>
      case Close => CloseStands(c, g, e, now);
      case Open => OpenStands(c, g, e, now);
      case Restart => RestartStands(c, g, e, now);
    }
  }

  lemma CloseStands(c: Counter, g: Gate, e: Edge, now: int)
    requires c.Ok(now) && e.sCycle <= now && EffectOf(g, e) == Close
    ensures var d := AtEdge(c, g, e, now);
            d.Ok(now) && d.At(now) == WithEdge(c.At(now), g, e, now)
  {
    hide Counter.Due, Counter.Elapsed, Counter.At, Counter.Target;
    var d := AtEdge(c, g, e, now);
    CountLeft(c, now);
    StoppedOk(c, d, now);
    AtStill(d, now);
    AtFields(c, now);
  }

  lemma OpenStands(c: Counter, g: Gate, e: Edge, now: int)
    requires c.Ok(now) && e.sCycle <= now && EffectOf(g, e) == Open
    ensures var d := AtEdge(c, g, e, now);
            d.Ok(now) && d.At(now) == WithEdge(c.At(now), g, e, now) <==> Timely(c, g, e, now)
  {
    hide Counter.Due, Counter.At, Counter.Target;
    var d := AtEdge(c, g, e, now);
    AtNow(d, now);
    AtFields(c, now);
    AtCount(c, now);
    MovedOk(c, d, now);
  }

  lemma RestartStands(c: Counter, g: Gate, e: Edge, now: int)
    requires c.Ok(now) && e.sCycle <= now && EffectOf(g, e) == Restart
    ensures var d := AtEdge(c, g, e, now);
            && d.At(now) == WithEdge(c.At(now), g, e, now)
            && (d.Ok(now) <==> Timely(c, g, e, now))
  {
    hide Counter.Due, Counter.At, Counter.Target;
    var d := AtEdge(c, g, e, now);
    OkTarget(c, now);
    AtFields(c, now);
    AtFields(d, now);
    AtCount(d, now);
    AtPhases(d, now);
    TargetBits(c.Target());
    ResetOk(d, now);
  }

  lemma OkTarget(c: Counter, now: int)
    requires c.Ok(now)
    ensures 0 < c.Target() < 0x10000
  {}

  lemma AtPhases(c: Counter, now: int)
    ensures c.At(now).phase == if c.Running() && c.sCycleT <= now then (now - c.sCycleT) % c.rate else 0
  {}

  lemma AtCount(c: Counter, now: int)
    ensures c.At(now).count == c.count + if c.Running() && c.sCycleT <= now then (now - c.sCycleT) / c.rate else 0
  {}

  lemma ResetOk(d: Counter, now: int)
    requires d.count == 0 && 0 < d.target < 0x10000 && d.sCycleT <= now
    ensures d.Ok(now) <==> (d.Running() ==> now < d.sCycleT + d.rate * d.target)
    ensures d.Target() == d.target && !d.IsFuture()
  {
    TargetBits(d.target);
  }

  /** A counter started over at cycle now. */
  lemma AtNow(d: Counter, now: int)
    requires d.sCycleT == now
    ensures d.At(now) == Timer(d.clock, d.rate, d.count, 0, d.Target(), d.IsFuture(), d.zeroReturn, d.targetInt, d.overflowInt,
                               d.targetReached, d.overflowReached)
  {
    NothingElapsed(d, now);
    AtFields(d, now);
  }

  lemma MovedOk(c: Counter, d: Counter, now: int)
    requires c.Ok(now) && d.sCycleT == now && d == c.(clock := d.clock, sCycleT := now)
    ensures d.Ok(now) <==> (d.clock != Stopped ==> c.Ahead() > 0)
    ensures d.Target() == c.Target()
  {
    if d.Ahead() > 0 { DueLater(d, now); }
  }

  lemma StoppedOk(c: Counter, d: Counter, now: int)
    requires c.Ok(now) && d.clock == Stopped && d.sCycleT <= now && d.count < 0x10000 && d.target == c.target
    ensures d.Ok(now) && d.Target() == c.Target()
  {
    hide Counter.Due;
  }

  /** The next event of a timer that goes is ahead of its count. */
  lemma CountLeft(c: Counter, now: int)
    requires c.Ok(now)
    ensures c.At(now).count < 0x10000
    ensures c.clock != Stopped ==> c.At(now).count < if c.IsFuture() then 0x10000 else c.target
    ensures c.clock == Stopped ==> c.At(now).count == c.count
  {
    if c.Running() { BelowLimit(c, now); }
  }

  lemma AtStill(c: Counter, now: int)
    requires !c.Running()
    ensures c.At(now) == Timer(c.clock, c.rate, c.count, 0, c.Target(), c.IsFuture(), c.zeroReturn, c.targetInt, c.overflowInt,
                               c.targetReached, c.overflowReached)
  {}

  /** An edge for all counters, and for the timers of the hardware. */
  function AtEdges(cs: seq<Counter>, gates: seq<Gate>, e: Edge, now: int): (us: seq<Counter>)
    requires |cs| == |gates|
    ensures |us| == |cs| && forall i :: 0 <= i < |cs| ==> us[i] == AtEdge(cs[i], gates[i], e, now)
  {
    seq(|cs|, i requires 0 <= i < |cs| => AtEdge(cs[i], gates[i], e, now))
  }

  function EdgeInBank(b: Bank, gates: seq<Gate>, e: Edge, now: int): Bank
    requires |b.timers| == |gates| && e.sCycle <= now
  {
    b.(timers := seq(|gates|, i requires 0 <= i < |gates| => WithEdge(b.timers[i], gates[i], e, now)))
  }

  lemma EdgesStand(cs: seq<Counter>, b: Bank, gates: seq<Gate>, e: Edge, now: int)
    requires Stands(cs, b.timers, now) && |cs| == |gates| && e.sCycle <= now
    ensures Stands(AtEdges(cs, gates, e, now), EdgeInBank(b, gates, e, now).timers, now) <==>
            forall i :: 0 <= i < |cs| ==> Timely(cs[i], gates[i], e, now)
  {
    hide Counter.At, Counter.Ok, AtEdge, WithEdge, Timely;
    forall i | 0 <= i < |cs|
      ensures var d := AtEdge(cs[i], gates[i], e, now);
              d.Ok(now) && d.At(now) == WithEdge(b.timers[i], gates[i], e, now) <==> Timely(cs[i], gates[i], e, now)
    {
      EdgeStands(cs[i], gates[i], e, now);
    }
  }

  /** An edge and then an update, at a cycle before the counter's event: the update finds nothing to do. */
  lemma EdgeThenUpdate(c: Counter, g: Gate, e: Edge, i: nat, now: int)
    requires c.Ok(now) && e.sCycle <= now && Timely(c, g, e, now)
    ensures var u := Updated(AtEdge(c, g, e, now), i, now);
            u.irqs == [] && u.it.Ok(now) && u.it.At(now) == WithEdge(c.At(now), g, e, now)
  {
    hide Counter.At, Counter.Due, Counter.Elapsed, Counter.Target, AtEdge, WithEdge, Timely;
    EdgeStands(c, g, e, now);
    NoUpdate(AtEdge(c, g, e, now), i, now);
  }

  /** Before its event, an update does nothing to a counter that anyone sees. */
  lemma NoUpdate(c: Counter, i: nat, now: int)
    requires c.Ok(now)
    ensures var u := Updated(c, i, now); u.irqs == [] && u.it.Ok(now) && u.it.At(now) == c.At(now)
  {
    hide Counter.At, Counter.Due, Counter.Ok, Counted;
    if c.Running() { QuietUpdate(c, i, now); }
    if c.clock == Hblanks { BlanksIdle(c, now); }
  }

  /** The gates that an edge acts on are timely, and their counters' events are not due at this very cycle. */
  ghost predicate AllTimely(cs: seq<Counter>, gates: seq<Gate>, e: Edge, now: int)
    requires |cs| == |gates|
  {
    forall i :: 0 <= i < |cs| && EffectOf(gates[i], e) != Nothing ==>
      Timely(cs[i], gates[i], e, now) && (cs[i].Running() ==> now < cs[i].Due())
  }

  /** An update that comes with the edge of a vertical blank gives what the hardware's n cycles and then the
      edge give. */
  lemma EdgeThenUpdates(cs: seq<Counter>, b: Bank, from: int, n: nat, gates: seq<Gate>, e: Edge)
    requires Stands(cs, b.timers, from) && InTime(cs, from + n) && |cs| == |gates| && e.sCycle <= from + n
    requires AllTimely(cs, gates, e, from + n)
    ensures var now := from + n; var r := Run(b, from, n); var ds := AtEdges(cs, gates, e, now);
            && |r.timers| == |cs|
            && Stands(UpdatedAll(ds, now), EdgeInBank(r, gates, e, now).timers, now)
            && r.irqs == b.irqs + IrqsOf(ds, |ds|, now)
  {
    hide Counter.At, Counter.Due, Counter.Ok, Updated, AtEdge, WithEdge, Timely, Run, IrqsOf;
    var now := from + n;
    var r := Run(b, from, n);
    var ds := AtEdges(cs, gates, e, now);
    UpdateIsRun(cs, b, from, n);
    forall i | 0 <= i < |cs|
      ensures Updated(ds[i], i, now).irqs == Updated(cs[i], i, now).irqs
      ensures var d := Updated(ds[i], i, now).it; d.Ok(now) && d.At(now) == WithEdge(r.timers[i], gates[i], e, now)
    {
      OneEdgeThenUpdate(cs[i], gates[i], e, i, from, now);
    }
    SameIrqs(cs, ds, |cs|, now);
  }

  lemma OneEdgeThenUpdate(c: Counter, g: Gate, e: Edge, i: nat, from: int, now: int)
    requires c.Ok(from) && from <= now && e.sCycle <= now && Updated(c, i, now).it.Ok(now)
    requires EffectOf(g, e) != Nothing ==> Timely(c, g, e, now) && (c.Running() ==> now < c.Due())
    ensures var u := Updated(AtEdge(c, g, e, now), i, now); var v := Updated(c, i, now);
            u.irqs == v.irqs && u.it.Ok(now) && u.it.At(now) == WithEdge(v.it.At(now), g, e, now)
  {
    hide Counter.At, Counter.Due, Counter.Ok, Updated, Timely, Counter.Target, Counter.Elapsed, Late;
    if EffectOf(g, e) != Nothing {
      hide AtEdge, WithEdge, EffectOf;
      OkLater(c, from, now);
      NoUpdate(c, i, now);
      EdgeThenUpdate(c, g, e, i, now);
    }
  }

  lemma OkLater(c: Counter, from: int, now: int)
    requires c.Ok(from) && from <= now && (c.Running() ==> now < c.Due())
    ensures c.Ok(now)
  {}

  lemma {:induction false} SameIrqs(cs: seq<Counter>, ds: seq<Counter>, k: nat, now: int)
    requires k <= |cs| == |ds|
    requires forall i :: 0 <= i < |cs| ==> Updated(ds[i], i, now).irqs == Updated(cs[i], i, now).irqs
    ensures IrqsOf(ds, k, now) == IrqsOf(cs, k, now)
  {
    hide Updated;
    if k > 0 { SameIrqs(cs, ds, k - 1, now); }
  }

  /** The schedule does not go past the event of a counter that an edge starts. */
  predicate InSchedule(c: Counter, g: Gate, e: Edge, now: int, t: int) {
    match EffectOf(g, e)
    case Open => g.source == Cycles ==> t <= now + c.rate * c.Ahead()
    case Restart => g.source == Cycles ==> t <= e.sCycle + c.rate * c.Target()
    case _ => true
  }

  lemma EdgeInSchedule(c: Counter, g: Gate, e: Edge, now: int, t: int)
    requires c.Ok(now) && (c.Running() ==> t <= c.Due())
    ensures (AtEdge(c, g, e, now).Running() ==> t <= AtEdge(c, g, e, now).Due()) <==> InSchedule(c, g, e, now, t)
  {
    if EffectOf(g, e) == Restart { ResetDue(c, g, e, now); }
  }

  lemma ResetDue(c: Counter, g: Gate, e: Edge, now: int)
    requires c.Ok(now) && EffectOf(g, e) == Restart
    ensures AtEdge(c, g, e, now).Due() == e.sCycle + c.rate * c.Target()
  {
    OkTarget(c, now);
  }

  lemma EdgesInSchedule(cs: seq<Counter>, gates: seq<Gate>, e: Edge, now: int, t: int)
    requires |cs| == |gates| && (forall i :: 0 <= i < |cs| ==> cs[i].Ok(now)) && InTime(cs, t)
    ensures InTime(AtEdges(cs, gates, e, now), t) <==> forall i :: 0 <= i < |cs| ==> InSchedule(cs[i], gates[i], e, now, t)
  {
    hide Counter.Ok, Counter.Due, AtEdge, InSchedule;
    forall i | 0 <= i < |cs|
      ensures var d := AtEdge(cs[i], gates[i], e, now); (d.Running() ==> t <= d.Due()) <==> InSchedule(cs[i], gates[i], e, now, t)
    {
      EdgeInSchedule(cs[i], gates[i], e, now, t);
    }
  }

  /** A restarted counter with an unspent target interrupt raises it in the update that comes with the edge,
      however soon after the edge that is, if and only if its target is not timely. */
  lemma RestartFires(c: Counter, g: Gate, e: Edge, i: nat, now: int)
    requires c.Ok(now) && e.sCycle <= now && EffectOf(g, e) == Restart && g.source == Cycles
    requires c.targetInt && !c.targetReached
    ensures Updated(AtEdge(c, g, e, now), i, now).irqs != [] <==> !Timely(c, g, e, now)
  {
    hide Counter.At, Counter.Due, Counter.Elapsed, Counter.Target, Updated;
    if Timely(c, g, e, now) {
      EdgeThenUpdate(c, g, e, i, now);
    } else {
      OkTarget(c, now);
      DivBelow(now - e.sCycle, c.rate, c.Target());
      OverdueFires(AtEdge(c, g, e, now), i, now);
    }
  }

  /** What the callers pass as the cycle of the edge is where the period began that has just ended: a restarted
      counter begins with the counts of that period. */
  lemma RestartCounts(c: Counter, g: Gate, e: Edge, now: int, period: nat)
    requires EffectOf(g, e) == Restart && g.source == Cycles && e.sCycle + period <= now
    ensures AtEdge(c, g, e, now).At(now).count >= period / c.rate
  {
    hide Counter.At;
    AtCount(AtEdge(c, g, e, now), now);
    if (now - e.sCycle) / c.rate < period / c.rate { DivBelow(now - e.sCycle, c.rate, period / c.rate); }
  }

  lemma OverdueFires(d: Counter, i: nat, now: int)
    requires d.Running() && d.sCycleT <= now && d.targetInt && !d.targetReached && d.count + (now - d.sCycleT) / d.rate >= d.target
    ensures var u := Updated(d, i, now).irqs; u != [] && u[0] == TargetIrq(i, now)
  {
    hide Counter.Target;
    CountedIs(d, now);
  }

  // ---- a target of 0 ----

  /** A counter whose target is 0 does what the hardware's timer does up to its overflow.  After that the next
      update raises the target's interrupt, whatever the count, which a timer never does that counts up to
      a target of 0. */
  lemma ZeroTarget(c: Counter, i: nat, now: int)
    requires c.Running() && (c.target == 0 || c.target == FUTURE_TARGET) && c.targetInt && !c.targetReached
    requires c.count < 0x10000 && c.sCycleT < now <= c.sCycleT + c.rate * (0x10000 - c.count)
    ensures Updated(c, i, now).irqs == Cycle(c.At(now - 1), i, now).irqs <==> c.IsFuture()
    ensures c.IsFuture() ==> Updated(c, i, now).it.At(now) == Cycle(c.At(now - 1), i, now).it
  {
    hide Counter.At, Counter.Due, Counter.Elapsed, Counter.Target, Updated, Cycle;
    if c.IsFuture() {
      LikeTarget1(c, i, now);
      UpdateIsCycle(c.(target := FUTURE_TARGET + 1), i, now);
    } else {
      ElapsedSome(c, now);
      OverdueFires(c, i, now);
      NeverZero(c, i, now);
    }
  }

  lemma ElapsedSome(c: Counter, now: int)
    requires c.sCycleT < now
    ensures (now - c.sCycleT) / c.rate >= 0
  {}

  lemma NeverZero(c: Counter, i: nat, now: int)
    requires c.target == 0
    ensures TargetIrq(i, now) !in Cycle(c.At(now - 1), i, now).irqs
  {}

  /** A target that waits for the overflow plays no part before it. */
  lemma LikeTarget1(c: Counter, i: nat, now: int)
    requires c.Running() && c.target == FUTURE_TARGET
    requires c.count < 0x10000 && c.sCycleT < now <= c.sCycleT + c.rate * (0x10000 - c.count)
    ensures var d := c.(target := FUTURE_TARGET + 1);
            && d.Ok(now - 1) && now <= d.Due()
            && Updated(c, i, now).irqs == Updated(d, i, now).irqs
            && Cycle(c.At(now - 1), i, now).irqs == Cycle(d.At(now - 1), i, now).irqs
            && (Updated(d, i, now).it.At(now) == Cycle(d.At(now - 1), i, now).it ==>
                  Updated(c, i, now).it.At(now) == Cycle(c.At(now - 1), i, now).it)
  {
    var d := c.(target := FUTURE_TARGET + 1);
    assert d.Ok(now - 1);
    hide Counter.At, Counter.Elapsed, Counter.Due, Cycle, Updated, Counter.Ok;
    UpdatedLike(c, d, i, now);
    CycleLike(c, d, i, now);
    TimerLike(Updated(c, i, now).it, Updated(d, i, now).it, now);
  }

  /** The same counter but for the target, 0 and 1. */
  predicate Like(c: Counter, d: Counter) {
    && c == d.(target := c.target)
    && ((c.target == FUTURE_TARGET && d.target == FUTURE_TARGET + 1) || (c.target == 0 && d.target == 1))
  }

  predicate TimersLike(x: Timer, y: Timer) { x == y.(target := 0) && y.target == 1 }

  lemma TimerLike(c: Counter, d: Counter, now: int)
    requires Like(c, d)
    ensures TimersLike(c.At(now), d.At(now)) && (c.At(now).past <==> c.target == FUTURE_TARGET)
  {}

  lemma UpdatedLike(c: Counter, d: Counter, i: nat, now: int)
    requires c.Running() && Like(c, d) && c.IsFuture()
    requires c.count < 0x10000 && c.sCycleT < now <= c.sCycleT + c.rate * (0x10000 - c.count)
    ensures var u, v := Updated(c, i, now), Updated(d, i, now); u.irqs == v.irqs && Like(u.it, v.it)
  {
    hide Counted, TestTarget, TestOverflow, Counter.At;
    CountedIs(c, now);
    CountedIs(d, now);
    DivBelow(now - c.sCycleT, c.rate, 0x10000 - c.count);
    TestsLike(Counted(c, now), Counted(d, now), i, now);
  }

  lemma TestsLike(c: Counter, d: Counter, i: nat, now: int)
    requires Like(c, d) && c.IsFuture() && c.count <= 0x10000
    ensures TestTarget(c, i, now) == Stepped(c, []) && TestTarget(d, i, now) == Stepped(d, [])
    ensures var u, v := TestOverflow(c, i, now), TestOverflow(d, i, now); u.irqs == v.irqs && Like(u.it, v.it)
  {}

  lemma CycleLike(c: Counter, d: Counter, i: nat, now: int)
    requires c.Running() && Like(c, d) && c.IsFuture()
    ensures var u, v := Cycle(c.At(now - 1), i, now), Cycle(d.At(now - 1), i, now);
            u.irqs == v.irqs && TimersLike(u.it, v.it)
  {
    hide Counter.At, Cycle;
    TimerLike(c, d, now - 1);
    TickLike(c.At(now - 1), d.At(now - 1), i, now);
  }

  lemma TickLike(x: Timer, y: Timer, i: nat, now: int)
    requires TimersLike(x, y) && x.past
    ensures var u, v := Cycle(x, i, now), Cycle(y, i, now); u.irqs == v.irqs && TimersLike(u.it, v.it)
  {
    hide Cycle;
    PastCycle(y, 0, i, now);
  }

  /** A target that was reached plays no part before the overflow. */
  lemma PastCycle(x: Timer, t: nat, i: nat, now: int)
    requires x.past
    ensures var u := Cycle(x, i, now);
            Cycle(x.(target := t), i, now) == Stepped(u.it.(target := t), u.irqs) && u.it.target == x.target
  {}

  // ---- 32-bit cycles ----

  const WORDS := 0x1_0000_0000

  /** A difference of two 32-bit values, read as signed. */
  function Signed(x: int): int {
    if x % WORDS < 0x8000_0000 then x % WORDS else x % WORDS - WORDS
  }

  /** The 32-bit cycle counter may wrap: the cycles since a running counter was updated, and those to its next
      event, come out of 32-bit arithmetic as they are, signed or not. */
  lemma CyclesFit(c: Counter, now: int)
    requires c.Ok(now) && c.Running() && c.rate <= 512
    ensures (now % WORDS - c.sCycleT % WORDS) % WORDS == Signed(now % WORDS - c.sCycleT % WORDS) == now - c.sCycleT
    ensures forall k :: k == 0x10000 - c.count || k == c.Ahead() ==>
              Signed(k * c.rate - (now % WORDS - c.sCycleT % WORDS)) == k * c.rate - (now - c.sCycleT)
  {
    hide Signed, Counter.Elapsed;
    MulBelow(c.rate, 512, 0x10000 - c.count, 0x10000);
    MulBelow(c.rate, 512, c.Ahead(), 0x10000);
    WrapsAway(now, c.sCycleT, (0x10000 - c.count) * c.rate);
    WrapsAway(now, c.sCycleT, c.Ahead() * c.rate);
  }

  lemma MulBelow(a: nat, a1: nat, b: nat, b1: nat)
    requires a <= a1 && b <= b1
    ensures a * b <= a1 * b1
  {}

  lemma WrapsAway(a: int, b: int, k: nat)
    requires 0 <= a - b < 0x8000_0000 && k < 0x8000_0000
    ensures (a % WORDS - b % WORDS) % WORDS == a - b == Signed(a % WORDS - b % WORDS)
    ensures Signed(k - (a % WORDS - b % WORDS)) == k - (a - b)
  {
    var q := b / WORDS - a / WORDS;
    SignedOf(a % WORDS - b % WORDS, a - b, q);
    SignedOf(k - (a % WORDS - b % WORDS), k - (a - b), -q);
  }

  /** A difference that fits is found again, whatever multiple of 2^32 is missing. */
  lemma SignedOf(x: int, d: int, q: int)
    requires x == d + WORDS * q && -0x8000_0000 <= d < 0x8000_0000
    ensures Signed(x) == d && (d >= 0 ==> x % WORDS == d)
  {
    if d >= 0 { DivModOf(WORDS, q, d); } else { DivModOf(WORDS, q - 1, d + WORDS); }
  }

  // ---- mode writes ----

  /** A value written to the mode register. */
  datatype Mode = Mode(counting: bool, hblanks: bool, rate: Rate, zeroReturn: bool, targetInt: bool, overflowInt: bool,
                       clearTarget: bool, clearOverflow: bool, enableGate: bool, onVblank: bool, gateMode: GateMode)
  {
    function Source(): Clock { if hblanks then Hblanks else Cycles }

    /** A gate on horizontal blanks is disabled for a timer that counts them. */
    function GateOf(): Gate {
      if enableGate && (onVblank || !hblanks) then Gated(onVblank, gateMode, Source()) else Ungated
    }

    /** A gated timer is stopped until its gate opens. */
    function Clocked(): Clock { if GateOf().Gated? || !counting then Stopped else Source() }
  }

  /** A mode write keeps the count, and e uncounted cycles count at the new rate; a gated timer stops at 0. */
  function WithMode(x: Timer, m: Mode, e: nat): Timer {
    Late(Timer(m.Clocked(), m.rate, if m.GateOf().Gated? then 0 else x.count, 0, x.target, x.past, m.zeroReturn, m.targetInt,
               m.overflowInt, x.targetReached && !m.clearTarget, x.overflowReached && !m.clearOverflow), e)
  }

  class EeTimers {
    const counters: array<Counter>
    var gates: seq<Gate>
    var cycle: int          // cpuRegs.cycle
    var nextsCounter: int   // when rcntUpdate last ran
    var nextCounter: int    // cycles from there to when it has to run again
    var irqs: seq<Irq>
    ghost var bank: Bank    // the hardware, now

    ghost predicate Valid()
      reads this, counters
    {
      && counters.Length == 4 && |bank.timers| == 4
      && Stands(counters[..], bank.timers, cycle) && irqs == bank.irqs
      && nextsCounter <= cycle && Scheduled(counters[..], nextsCounter + nextCounter)
      && |gates| == 4
    }

    /** `rcntInit` at cycle `now`, with the next vsync event `vsync` cycles away. */
    constructor (now: int, vsync: int)
      ensures Valid() && fresh(counters) && cycle == now && irqs == [] && gates == [Ungated, Ungated, Ungated, Ungated]
      ensures nextsCounter == now && nextCounter == if vsync > 0 then vsync else 0
      ensures forall i :: 0 <= i < 4 ==> counters[..][i] == Counter(Stopped, 2, 0, 0xffff, now, false, false, false, false, false)
      ensures forall i :: 0 <= i < 4 ==> bank.timers[i] == Timer(Stopped, 2, 0, 0, 0xffff, false, false, false, false, false, false)
    {
      counters := new Counter[4](i => Counter(Stopped, 2, 0, 0xffff, now, false, false, false, false, false));
      gates := [Ungated, Ungated, Ungated, Ungated];
      cycle, nextsCounter, nextCounter, irqs := now, now, 0, [];
      new;
      bank := Bank(seq(4, i => Timer(Stopped, 2, 0, 0, 0xffff, false, false, false, false, false, false)), []);
      CpuRcntSet(vsync);
    }

    /** No event of a running counter comes before cycle t. */
    static ghost predicate Scheduled(cs: seq<Counter>, t: int) { InTime(cs, t) }

    /** `_cpuTestTarget`. */
    method CpuTestTarget(i: nat)
      requires i < counters.Length
      modifies counters, `irqs
      ensures counters[..] == old(counters[..])[i := TestTarget(old(counters[i]), i, cycle).it]
      ensures irqs == old(irqs) + TestTarget(old(counters[i]), i, cycle).irqs
    {
      var c := counters[i];
      if c.count < c.target { return; }
      if c.targetInt {
        if !c.targetReached {
          c := c.(targetReached := true);
          irqs := irqs + [TargetIrq(i, cycle)];
        }
      }
      if c.zeroReturn {
        c := c.(count := c.count - c.target);
      } else if !c.IsFuture() {
        c := c.(target := c.target + FUTURE_TARGET);
      }
      counters[i] := c;
    }

    /** `_cpuTestOverflow`. */
    method CpuTestOverflow(i: nat)
      requires i < counters.Length
      modifies counters, `irqs
      ensures counters[..] == old(counters[..])[i := TestOverflow(old(counters[i]), i, cycle).it]
      ensures irqs == old(irqs) + TestOverflow(old(counters[i]), i, cycle).irqs
    {
      var c := counters[i];
      if c.count <= 0xffff { return; }
      if c.overflowInt {
        if !c.overflowReached {
          c := c.(overflowReached := true);
          irqs := irqs + [OverflowIrq(i, cycle)];
        }
      }
      counters[i] := c.(count := c.count - 0x10000, target := c.target % 0x10000);
    }

    /** The loop body of `rcntUpdate`. */
    method UpdateOne(i: nat)
      requires i < counters.Length
      modifies counters, `irqs
      ensures counters[..] == old(counters[..])[i := Updated(old(counters[i]), i, cycle).it]
      ensures irqs == old(irqs) + Updated(old(counters[i]), i, cycle).irqs
    {
      hide TestTarget, TestOverflow, Counted;
      if counters[i].clock == Stopped { return; }
      if counters[i].clock == Cycles {
        CountUp(i);
        CpuTestTarget(i);
        CpuTestOverflow(i);
      } else {
        counters[i] := counters[i].(sCycleT := cycle);
      }
    }

    /** The counting part of the loop body. */
    method CountUp(i: nat)
      requires i < counters.Length
      modifies counters
      ensures counters[..] == old(counters[..])[i := Counted(old(counters[i]), cycle)]
    {
      var c := counters[i];
      var change := cycle - c.sCycleT;
      if change < 0 { change := 0; }
      var ticks := change / c.rate;
      counters[i] := c.(count := c.count + ticks, sCycleT := cycle - (change - ticks * c.rate));
    }

    /** The event of a running counter was missed, as far as `_rcntSet` can tell. */
    static predicate Missed(c: Counter) { c.Running() && (c.count > 0x10000 || c.count > c.target) }

    /** `_rcntSet`: the schedule does not go past the counter's next event; a missed one is looked at soon. */
    method RcntSet(i: nat)
      requires i < counters.Length
      modifies `nextCounter
      ensures !counters[i].Running() ==> nextCounter == old(nextCounter)
      ensures if Missed(counters[i]) then nextCounter == 4
              else nextCounter <= old(nextCounter) && (counters[i].Running() ==> nextsCounter + nextCounter <= counters[i].Due())
    {
      var c := counters[i];
      if !c.Running() { return; }
      if c.count > 0x10000 || c.count > c.target {
        nextCounter := 4;
        return;
      }
      var delta := (0x10000 - c.count) * c.rate - (cycle - c.sCycleT);
      delta := delta + (cycle - nextsCounter);
      if delta < nextCounter { nextCounter := delta; }
      if c.target >= FUTURE_TARGET { return; }
      delta := (c.target - c.count) * c.rate - (cycle - c.sCycleT);
      delta := delta + (cycle - nextsCounter);
      if delta < nextCounter { nextCounter := delta; }
    }

    static lemma NothingMissed(c: Counter, now: int)
      requires c.Ok(now)
      ensures !Missed(c)
    {}

    ghost predicate AllOk()
      reads this, counters
    {
      forall i :: 0 <= i < counters.Length ==> counters[i].Ok(cycle)
    }

    /** `cpuRcntSet`.  `vsync` is the time to the next vsync event. */
    method CpuRcntSet(vsync: int)
      modifies `nextsCounter, `nextCounter
      ensures nextsCounter == cycle && nextCounter >= 0
      ensures AllOk() ==> Scheduled(counters[..], nextsCounter + nextCounter) && nextCounter <= if vsync > 0 then vsync else 0
      ensures (forall i :: 0 <= i < counters.Length ==> !counters[i].Running()) ==> nextCounter == if vsync > 0 then vsync else 0
    {
      hide Counter.Due, Counter.At, Counter.Ok, Missed;
      nextsCounter := cycle;
      nextCounter := vsync;
      var i := 0;
      while i < counters.Length
        invariant 0 <= i <= counters.Length && nextsCounter == cycle
        invariant AllOk() ==> nextCounter <= vsync
        invariant (forall k :: 0 <= k < i ==> !counters[k].Running()) ==> nextCounter == vsync
        invariant AllOk() ==> forall k :: 0 <= k < i ==> counters[k].Running() ==> cycle + nextCounter <= counters[k].Due()
      {
        if AllOk() { NothingMissed(counters[i], cycle); }
        RcntSet(i);
        i := i + 1;
      }
      if AllOk() { NotYetDue(counters[..], cycle); }
      if nextCounter < 0 { nextCounter := 0; }
    }

    static lemma NotYetDue(cs: seq<Counter>, now: int)
      requires forall i :: 0 <= i < |cs| ==> cs[i].Ok(now)
      ensures Scheduled(cs, now)
    {}

    /** The loop of `rcntUpdate`. */
    method UpdateCounters()
      modifies counters, `irqs
      ensures counters[..] == UpdatedAll(old(counters[..]), cycle)
      ensures irqs == old(irqs) + IrqsOf(old(counters[..]), counters.Length, cycle)
    {
      hide Updated;
      ghost var cs := counters[..];
      var i := 0;
      assert irqs + [] == irqs;
      while i < counters.Length
        invariant 0 <= i <= counters.Length
        invariant forall j :: 0 <= j < i ==> counters[j] == Updated(cs[j], j, cycle).it
        invariant forall j :: i <= j < counters.Length ==> counters[j] == cs[j]
        invariant irqs == old(irqs) + IrqsOf(cs, i, cycle)
      {
        ghost var before := counters[..];
        MoreIrqs(old(irqs), IrqsOf(cs, i, cycle), Updated(cs[i], i, cycle).irqs);
        UpdateOne(i);
        assert forall j :: 0 <= j < counters.Length ==> counters[j] == counters[..][j];
        i := i + 1;
      }
    }

    /** The event test runs `rcntUpdate` n cycles later.  If that is not after the scheduled cycle, the
        counters, and the interrupts with their cycles, are those of n cycles of the hardware. */
    method RcntUpdate(n: nat, vsync: int)
      requires Valid() && cycle + n <= nextsCounter + nextCounter
      modifies this, counters
      ensures Valid() && cycle == old(cycle) + n && bank == Run(old(bank), old(cycle), n)
      ensures nextsCounter == cycle && nextCounter >= 0 && gates == old(gates)
    {
      hide Counter.Due, Counter.At, Counter.Ok, Updated, Run, IrqsOf;
      ghost var cs, b := counters[..], bank;
      UpdateIsRun(cs, b, cycle, n);
      cycle := cycle + n;
      bank := Run(b, old(cycle), n);
      UpdateCounters();
      assert forall j :: 0 <= j < counters.Length ==> counters[j] == counters[..][j];
      CpuRcntSet(vsync);
    }

    /** n cycles pass before the scheduled one, without an update. */
    method Pass(n: nat)
      requires Valid() && (n == 0 || cycle + n < nextsCounter + nextCounter)
      modifies `cycle, `bank
      ensures Valid() && cycle == old(cycle) + n && bank == Run(old(bank), old(cycle), n)
    {
      hide Counter.Due, Counter.At, CycleFrom;
      QuietRun(counters[..], bank, cycle, n);
      bank := Run(bank, cycle, n);
      cycle := cycle + n;
    }

    /** The counting part of the loop body of `rcntStartGate`. */
    method BlankOne(i: nat)
      requires i < counters.Length
      modifies counters, `irqs
      ensures counters[..] == old(counters[..])[i := Blanked(old(counters[i]), i, cycle).it]
      ensures irqs == old(irqs) + Blanked(old(counters[i]), i, cycle).irqs
    {
      hide TestTarget, TestOverflow;
      if counters[i].clock != Hblanks { return; }
      counters[i] := counters[i].(count := counters[i].count + 1);
      CpuTestTarget(i);
      CpuTestOverflow(i);
    }

    /** The gate's part of the loop body of `rcntStartGate`. */
    method StartGate(i: nat, vblank: bool, sCycle: int)
      requires i < counters.Length == |gates| && counters[i].sCycleT <= cycle
      modifies counters
      ensures counters[..] == old(counters[..])[i := AtEdge(old(counters[i]), gates[i], Edge(vblank, true, sCycle), cycle)]
    {
      if gates[i].Ungated? { return; }
      if gates[i].vblank != vblank { return; }
      var c := counters[i];
      match gates[i].mode {
        case WhileLow =>
          var n := ReadCount(i);
          counters[i] := c.(count := n, clock := Stopped, sCycleT := sCycle);
        case FromEnd =>
        case _ =>
          counters[i] := c.(clock := gates[i].source, count := 0, target := c.target % 0x10000, sCycleT := sCycle);
      }
    }

    /** The loop body of `rcntEndGate`. */
    method EndGate(i: nat, vblank: bool, sCycle: int)
      requires i < counters.Length == |gates|
      modifies counters
      ensures counters[..] == old(counters[..])[i := AtEdge(old(counters[i]), gates[i], Edge(vblank, false, sCycle), cycle)]
    {
      if gates[i].Ungated? { return; }
      if gates[i].vblank != vblank { return; }
      var c := counters[i];
      match gates[i].mode {
        case WhileLow =>
          counters[i] := c.(clock := gates[i].source, sCycleT := cycle);
        case FromStart =>
        case _ =>
          counters[i] := c.(clock := gates[i].source, count := 0, target := c.target % 0x10000, sCycleT := sCycle);
      }
    }

    /** The blanks are counted before the gate closes. */
    static function CountedBlank(c: Counter, i: nat, vblank: bool, now: int): Stepped<Counter> {
      if vblank then Stepped(c, []) else Blanked(c, i, now)
    }

    static function AfterBlank(cs: seq<Counter>, vblank: bool, now: int): (us: seq<Counter>)
      ensures |us| == |cs| && forall i :: 0 <= i < |cs| ==> us[i] == CountedBlank(cs[i], i, vblank, now).it
    {
      if vblank then cs else BlankedAll(cs, now)
    }

    static function IrqsBefore(cs: seq<Counter>, k: nat, vblank: bool, now: int): seq<Irq>
      requires k <= |cs|
    {
      if vblank then [] else BlankIrqs(cs, k, now)
    }

    static lemma OneMore(irqs: seq<Irq>, cs: seq<Counter>, i: nat, vblank: bool, now: int)
      requires i < |cs|
      ensures irqs + IrqsBefore(cs, i + 1, vblank, now) ==
              irqs + IrqsBefore(cs, i, vblank, now) + CountedBlank(cs[i], i, vblank, now).irqs
    {
      hide Blanked;
    }

    /** The loop body of `rcntStartGate`. */
    method StartOne(i: nat, vblank: bool, sCycle: int)
      requires i < counters.Length == |gates| && counters[i].sCycleT <= cycle
      modifies counters, `irqs
      ensures counters[..] == old(counters[..])[i := AtEdge(CountedBlank(old(counters[i]), i, vblank, cycle).it, gates[i],
                                                            Edge(vblank, true, sCycle), cycle)]
      ensures irqs == old(irqs) + CountedBlank(old(counters[i]), i, vblank, cycle).irqs
    {
      hide Blanked, AtEdge;
      if !vblank {
        BlanksStay(counters[i], i, cycle);
        BlankOne(i);
        assert counters[i] == counters[..][i];
      }
      StartGate(i, vblank, sCycle);
    }

    /** `rcntStartGate`. */
    method RcntStartGate(vblank: bool, sCycle: int)
      requires counters.Length == |gates| && forall j :: 0 <= j < counters.Length ==> counters[j].sCycleT <= cycle
      modifies counters, `irqs
      ensures counters[..] == AtEdges(AfterBlank(old(counters[..]), vblank, cycle), gates, Edge(vblank, true, sCycle), cycle)
      ensures irqs == old(irqs) + IrqsBefore(old(counters[..]), counters.Length, vblank, cycle)
    {
      hide CountedBlank, AtEdge, Blanked;
      ghost var cs := counters[..];
      ghost var e := Edge(vblank, true, sCycle);
      var i := 0;
      assert irqs + [] == irqs;
      while i < counters.Length
        invariant 0 <= i <= counters.Length
        invariant forall j :: 0 <= j < i ==> counters[j] == AtEdge(CountedBlank(cs[j], j, vblank, cycle).it, gates[j], e, cycle)
        invariant forall j :: i <= j < counters.Length ==> counters[j] == cs[j]
        invariant irqs == old(irqs) + IrqsBefore(cs, i, vblank, cycle)
      {
        OneMore(old(irqs), cs, i, vblank, cycle);
        StartOne(i, vblank, sCycle);
        assert forall j :: 0 <= j < counters.Length ==> counters[j] == counters[..][j];
        i := i + 1;
      }
    }

    /** `rcntEndGate`. */
    method RcntEndGate(vblank: bool, sCycle: int)
      requires counters.Length == |gates|
      modifies counters
      ensures counters[..] == AtEdges(old(counters[..]), gates, Edge(vblank, false, sCycle), cycle)
    {
      hide AtEdge;
      ghost var cs := counters[..];
      ghost var e := Edge(vblank, false, sCycle);
      var i := 0;
      while i < counters.Length
        invariant 0 <= i <= counters.Length
        invariant forall j :: 0 <= j < i ==> counters[j] == AtEdge(cs[j], gates[j], e, cycle)
        invariant forall j :: i <= j < counters.Length ==> counters[j] == cs[j]
      {
        EndGate(i, vblank, sCycle);
        assert forall j :: 0 <= j < counters.Length ==> counters[j] == counters[..][j];
        i := i + 1;
      }
    }

    /** Every gate that the edge acts on leaves its counter with its event ahead, and scheduled. */
    static predicate OnTime(cs: seq<Counter>, gates: seq<Gate>, e: Edge, now: int, t: int)
      requires |cs| == |gates|
    {
      forall i :: 0 <= i < |cs| ==> Timely(cs[i], gates[i], e, now) && InSchedule(cs[i], gates[i], e, now, t)
    }

    /** `rcntStartGate` at a horizontal blank: the timers that count blanks go on as the hardware's do, and
        gates close and restart theirs.  The schedule is not touched. */
    method StartHblank(sCycle: int)
      requires Valid() && sCycle <= cycle
      modifies counters, `irqs, `bank
      ensures |bank.timers| == 4 && irqs == bank.irqs
      ensures counters[..] == AtEdges(old(BlankedAll(counters[..], cycle)), gates, Edge(false, true, sCycle), cycle)
      ensures bank == EdgeInBank(HblankFrom(old(bank), 0, cycle), gates, Edge(false, true, sCycle), cycle)
      ensures Valid() <==>
              OnTime(old(BlankedAll(counters[..], cycle)), gates, Edge(false, true, sCycle), cycle, nextsCounter + nextCounter)
    {
      hide Counter.Due, Counter.At, Counter.Ok, Tick, Blanked, BlankIrqs, HblankFrom, Scheduled, InTime, AtEdge, WithEdge,
           Timely, InSchedule;
      ghost var cs, b, t := counters[..], bank, nextsCounter + nextCounter;
      ghost var e := Edge(false, true, sCycle);
      SameBlanks(cs, b, cycle);
      RunningKept(cs, cycle, t);
      Begun(cs, cycle);
      assert forall j :: 0 <= j < 4 ==> counters[j] == cs[j];
      RcntStartGate(false, sCycle);
      bank := EdgeInBank(HblankFrom(b, 0, cycle), gates, e, cycle);
      Edged(BlankedAll(cs, cycle), HblankFrom(b, 0, cycle), gates, e, cycle, t);
    }

    /** `rcntEndGate` at a horizontal blank: gates open and restart their counters, and the schedule is not
        touched. */
    method EndHblank(sCycle: int)
      requires Valid() && sCycle <= cycle
      modifies counters, `bank
      ensures |bank.timers| == 4 && irqs == bank.irqs
      ensures counters[..] == AtEdges(old(counters[..]), gates, Edge(false, false, sCycle), cycle)
      ensures bank == EdgeInBank(old(bank), gates, Edge(false, false, sCycle), cycle)
      ensures Valid() <==> OnTime(old(counters[..]), gates, Edge(false, false, sCycle), cycle, nextsCounter + nextCounter)
    {
      hide Counter.Due, Counter.At, Counter.Ok, Scheduled, InTime, AtEdge, WithEdge, Timely, InSchedule;
      ghost var cs, b := counters[..], bank;
      ghost var e := Edge(false, false, sCycle);
      RcntEndGate(false, sCycle);
      bank := EdgeInBank(b, gates, e, cycle);
      Edged(cs, b, gates, e, cycle, nextsCounter + nextCounter);
    }

    static lemma Begun(cs: seq<Counter>, now: int)
      requires forall i :: 0 <= i < |cs| ==> cs[i].Ok(now)
      ensures forall i :: 0 <= i < |cs| ==> cs[i].sCycleT <= now
    {}

    static lemma Edged(cs: seq<Counter>, b: Bank, gates: seq<Gate>, e: Edge, now: int, t: int)
      requires Stands(cs, b.timers, now) && |cs| == |gates| && e.sCycle <= now && Scheduled(cs, t)
      ensures var ds := AtEdges(cs, gates, e, now); var r := EdgeInBank(b, gates, e, now);
              Stands(ds, r.timers, now) && Scheduled(ds, t) <==> OnTime(cs, gates, e, now, t)
    {
      hide Counter.Due, Counter.At, Counter.Ok, InTime, AtEdge, WithEdge, Timely, InSchedule;
      EdgesStand(cs, b, gates, e, now);
      EdgesInSchedule(cs, gates, e, now, t);
    }

    /** `rcntUpdate` n cycles later, when the vertical blank starts or ends: its edge acts on the counters
        before they are updated, and they are those of the hardware's n cycles and edge. */
    method RcntUpdateAtVblank(n: nat, vsync: int, start: bool, sCycle: int)
      requires Valid() && cycle + n <= nextsCounter + nextCounter && sCycle <= cycle + n
      modifies this, counters
      ensures cycle == old(cycle) + n && gates == old(gates) && nextsCounter == cycle && nextCounter >= 0
      ensures counters[..] == UpdatedAll(AtEdges(old(counters[..]), gates, Edge(true, start, sCycle), cycle), cycle)
      ensures AllTimely(old(counters[..]), gates, Edge(true, start, sCycle), cycle) ==>
                Valid() && bank == EdgeInBank(Run(old(bank), old(cycle), n), gates, Edge(true, start, sCycle), cycle)
    {
      hide Counter.Due, Counter.At, Counter.Ok, Updated, Run, IrqsOf, Timely, AtEdge, WithEdge, AllTimely;
      ghost var cs, b, e := counters[..], bank, Edge(true, start, sCycle);
      ghost var ds := AtEdges(cs, gates, e, cycle + n);
      if AllTimely(cs, gates, e, cycle + n) { EdgeThenUpdates(cs, b, cycle, n, gates, e); }
      Begun(cs, cycle);
      assert forall j :: 0 <= j < 4 ==> counters[j] == cs[j];
      cycle := cycle + n;
      if start { RcntStartGate(true, sCycle); } else { RcntEndGate(true, sCycle); }
      assert irqs == old(irqs) + [] == old(irqs);
      assert counters[..] == ds;
      bank := EdgeInBank(Run(b, old(cycle), n), gates, e, cycle);
      UpdateCounters();
      assert forall j :: 0 <= j < counters.Length ==> counters[j] == counters[..][j];
      CpuRcntSet(vsync);
    }

    static lemma SameBlanks(cs: seq<Counter>, b: Bank, now: int)
      requires Stands(cs, b.timers, now)
      ensures var r := HblankFrom(b, 0, now);
              |r.timers| == |cs| && Stands(BlankedAll(cs, now), r.timers, now) && r.irqs == b.irqs + BlankIrqs(cs, |cs|, now)
    {
      hide Counter.Due, Counter.At, Counter.Ok, Tick, Blanked, HblankFrom;
      assert b.irqs == b.irqs + [];
      BlanksAreTicks(cs, b, 0, now, b.irqs);
    }

    static lemma RunningKept(cs: seq<Counter>, now: int, t: int)
      requires Scheduled(cs, t)
      ensures Scheduled(BlankedAll(cs, now), t)
    {
      hide Counter.Due, TestTarget, TestOverflow;
      forall i | 0 <= i < |cs| && Blanked(cs[i], i, now).it.Running() ensures Blanked(cs[i], i, now).it == cs[i] {
        BlanksStay(cs[i], i, now);
      }
    }

    static lemma BlanksStay(c: Counter, i: nat, now: int)
      ensures var d := Blanked(c, i, now).it; d.clock == c.clock && d.sCycleT == c.sCycleT
    {}

    /** `rcntRcount`: a read between updates gives what the hardware counts. */
    method RcntRcount(i: nat) returns (r: nat)
      requires Valid() && i < 4
      ensures r == bank.timers[i].count < 0x10000
    {
      CountBelow(counters[i], cycle);
      assert bank.timers[i] == counters[..][i].At(cycle);
      r := ReadCount(i);
    }

    /** The arithmetic of `rcntRcount`. */
    method ReadCount(i: nat) returns (r: nat)
      requires i < counters.Length && counters[i].sCycleT <= cycle
      ensures r == counters[i].At(cycle).count
    {
      var c := counters[i];
      if c.Running() {
        r := c.count + (cycle - c.sCycleT) / c.rate;
      } else {
        r := c.count;
      }
    }

    static lemma CountBelow(c: Counter, now: int)
      requires c.Ok(now)
      ensures c.At(now).count < 0x10000
    {
      if c.Running() { BelowLimit(c, now); }
    }
  
    /** rcntWcount on one counter. */
    static function Recounted(c: Counter, v: nat, now: int): Counter {
      c.(count := v % 0x10000, target := c.Target() + (if v % 0x10000 > c.Target() then FUTURE_TARGET else 0),
         sCycleT := Restarted(c, now))
    }

    /** Where the count begins that is under way. */
    static function Restarted(c: Counter, now: int): int {
      if c.clock == Stopped then now
      else if c.Running() && now > c.sCycleT then now - (now - c.sCycleT) % c.rate
      else c.sCycleT
    }

    /** A counter less than one count after sCycleT. */
    static lemma AtPhase(d: Counter, now: int, p: nat)
      requires d.Running() && now - d.sCycleT == p < d.rate
      ensures d.At(now) == Timer(Cycles, d.rate, d.count, p, d.Target(), d.IsFuture(), d.zeroReturn, d.targetInt, d.overflowInt,
                                 d.targetReached, d.overflowReached)
      ensures d.Ahead() > 0 ==> now < d.Due()
    {
      DivModOf(d.rate, 0, p);
      if d.Ahead() > 0 { MulAtLeast(d.rate, d.Ahead()); }
    }

    /** A new count restarts the comparison, and keeps the part of a count that has passed.  The counter
        stands for the hardware's timer again exactly if the new count is not the target itself: that
        would fire at the next update, whenever it comes. */
    static lemma RecountedStands(c: Counter, v: nat, now: int)
      requires c.Ok(now)
      ensures var d := Recounted(c, v, now);
              && d.At(now) == WithCount(c.At(now), v % 0x10000)
              && (c.clock != Stopped ==> (d.Ok(now) <==> v % 0x10000 != c.Target()))
              && (c.clock == Stopped ==> d.Ok(now))
    {
      hide Counter.Elapsed, Counter.Due;
      var d := Recounted(c, v, now);
      TargetBits(c.Target());
      if c.Running() {
        var p := (now - c.sCycleT) % c.rate;
        assert now - d.sCycleT == p by { NoTime(c, now); }
        AtPhase(d, now, p);
        hide Recounted;
        RecountedFields(c, v, now);
      }
    }

    static lemma NoTime(c: Counter, now: int)
      ensures now == c.sCycleT ==> (now - c.sCycleT) % c.rate == 0
    {}

    static lemma RecountedFields(c: Counter, v: nat, now: int)
      requires 0 < c.Target()
      ensures var d := Recounted(c, v, now);
              && d.count == v % 0x10000 && d.target == c.Target() + (if v % 0x10000 > c.Target() then FUTURE_TARGET else 0)
              && d == c.(count := d.count, target := d.target, sCycleT := d.sCycleT)
    {
      hide Restarted;
    }

    /** The arithmetic of `rcntWcount`. */
    method Recount(i: nat, value: nat)
      requires i < counters.Length
      modifies counters
      ensures counters[..] == old(counters[..])[i := Recounted(old(counters[i]), value, cycle)]
    {
      var c := counters[i].(count := value % 0x10000, target := counters[i].target % 0x10000);
      if c.count > c.target { c := c.(target := c.target + FUTURE_TARGET); }
      if c.clock == Stopped {
        c := c.(sCycleT := cycle);
      } else if c.clock == Cycles {
        var change := cycle - c.sCycleT;
        if change > 0 {
          change := change - change / c.rate * c.rate;
          c := c.(sCycleT := cycle - change);
        }
      }
      counters[i] := c;
    }

    /** `rcntWcount`.  A running counter that is set to its target itself has its event due at once. */
    method RcntWcount(i: nat, value: nat)
      requires Valid() && i < 4
      modifies counters, `nextCounter, `bank
      ensures cycle == old(cycle) && irqs == old(irqs)
      ensures counters[..] == old(counters[..])[i := Recounted(old(counters[i]), value, cycle)]
      ensures !(old(counters[i]).clock != Stopped && value % 0x10000 == old(counters[i]).Target()) ==>
                && Valid()
                && bank == old(bank).(timers := old(bank).timers[i := WithCount(old(bank).timers[i], value % 0x10000)])
      ensures old(counters[i]).Running() && value % 0x10000 == old(counters[i]).Target() ==> nextsCounter + nextCounter <= cycle
    {
      hide Counter.Due, Counter.At, Counter.Ok, Counter.Target, Recounted, Missed;
      ghost var cs := counters[..];
      assert forall j :: 0 <= j < 4 ==> cs[j] == counters[j];
      RecountedStands(cs[i], value, cycle);
      RecountedDue(cs[i], value, cycle);
      Recount(i, value);
      bank := bank.(timers := bank.timers[i := WithCount(bank.timers[i], value % 0x10000)]);
      assert counters[i] == counters[..][i];
      RcntSet(i);
    }

    static lemma RecountedDue(c: Counter, v: nat, now: int)
      requires c.Ok(now)
      ensures var d := Recounted(c, v, now);
              && !Missed(d) && d.clock == c.clock
              && (c.Running() && v % 0x10000 == c.Target() ==> d.Due() <= now)
    {
      hide Counter.At, Counter.Elapsed;
      TargetBits(c.Target());
    }

    /** What that means: one cycle later the counter raises the interrupts that the hardware raises if and
        only if the new count was not the target itself. */
    static lemma RecountedFires(c: Counter, v: nat, i: nat, now: int)
      requires c.Ok(now) && c.Running() && c.targetInt && !c.targetReached
      ensures Updated(Recounted(c, v, now), i, now + 1).irqs == Cycle(WithCount(c.At(now), v % 0x10000), i, now + 1).irqs
              <==> v % 0x10000 != c.Target()
    {
      hide Counter.Elapsed, Counter.At, Counter.Due, Recounted, Updated, Cycle, Counter.Target;
      RecountedStands(c, v, now);
      var d := Recounted(c, v, now);
      if v % 0x10000 != c.Target() {
        OkDue(d, now);
        UpdateIsCycle(d, i, now + 1);
      } else {
        AtFields(c, now);
        OkTarget(c, now);
        RecountedFields(c, v, now);
        FiresAtOnce(d, i, now + 1);
        NoTargetYet(WithCount(c.At(now), v % 0x10000), i, now + 1);
      }
    }

    /** A timer that stands at its target does not reach it with the next count. */
    static lemma NoTargetYet(x: Timer, i: nat, now: int)
      requires x.count == x.target
      ensures var irqs := Cycle(x, i, now).irqs; irqs == [] || irqs[0] != TargetIrq(i, now)
      ensures var irqs := Tick(x, i, now).irqs; irqs == [] || irqs[0] != TargetIrq(i, now)
    {}

    /** The same for a counter of blanks: at the next one, the interrupts are the hardware's if and only if
        the new count was not the target itself. */
    static lemma RecountedFiresAtBlank(c: Counter, v: nat, i: nat, now: int)
      requires c.Ok(now) && c.clock == Hblanks && c.targetInt && !c.targetReached
      ensures Blanked(Recounted(c, v, now), i, now).irqs == Tick(WithCount(c.At(now), v % 0x10000), i, now).irqs
              <==> v % 0x10000 != c.Target()
    {
      hide Counter.Elapsed, Counter.At, Counter.Due, Recounted, Blanked, Tick, Counter.Target;
      RecountedStands(c, v, now);
      var d := Recounted(c, v, now);
      OkTarget(c, now);
      RecountedFields(c, v, now);
      if v % 0x10000 != c.Target() {
        BlankIsTick(d, i, now);
      } else {
        AtFields(c, now);
        BlankFires(d, i, now);
        NoTargetYet(WithCount(c.At(now), v % 0x10000), i, now);
      }
    }

    static lemma BlankFires(d: Counter, i: nat, now: int)
      requires d.clock == Hblanks && d.targetInt && !d.targetReached && d.count >= d.target
      ensures var u := Blanked(d, i, now).irqs; u != [] && u[0] == TargetIrq(i, now)
    {
      hide Counter.Target;
    }

    static lemma OkDue(c: Counter, now: int)
      requires c.Ok(now)
      ensures c.Running() ==> now + 1 <= c.Due()
    {}

    static lemma FiresAtOnce(d: Counter, i: nat, now: int)
      requires d.Running() && d.targetInt && !d.targetReached && d.count >= d.target
      ensures var u := Updated(d, i, now).irqs; u != [] && u[0] == TargetIrq(i, now)
    {
      hide Counter.Target;
    }
  
    /** rcntWtarget on one counter. */
    static function Retargeted(c: Counter, v: nat, now: int): Counter {
      var c1 := if c.Running() then Counted(c, now) else c;
      c1.(target := v % 0x10000 + if v % 0x10000 <= c1.count then FUTURE_TARGET else 0)
    }

    /** A new target is compared from now on, or after the next overflow if the count has reached it. */
    static lemma RetargetedStands(c: Counter, v: nat, now: int)
      requires c.Ok(now) && v % 0x10000 > 0
      ensures var d := Retargeted(c, v, now);
              d.At(now) == WithTarget(c.At(now), v % 0x10000) && d.Ok(now)
    {
      hide Counter.Elapsed, Counter.Due, Counted, Counter.Target, Retargeted;
      var d := Retargeted(c, v, now);
      RetargetedFields(c, v, now);
      if c.Running() {
        CountedIs(c, now);
        BelowLimit(c, now);
        assert (now - c.sCycleT) % c.rate < c.rate;
        AtPhase(d, now, (now - c.sCycleT) % c.rate);
      }
    }

    static lemma RetargetedFields(c: Counter, v: nat, now: int)
      requires v % 0x10000 > 0
      ensures var d := Retargeted(c, v, now); var c1 := if c.Running() then Counted(c, now) else c;
              && d == c1.(target := d.target) && d.Target() == v % 0x10000
              && d.target == (if v % 0x10000 <= c1.count then v % 0x10000 + FUTURE_TARGET else v % 0x10000)
    {
      hide Counted;
      TargetBits(v % 0x10000);
    }

    /** `rcntWtarget`.  A target of 0 waits for the overflow. */
    method RcntWtarget(i: nat, value: nat)
      requires Valid() && i < 4
      modifies counters, `nextCounter, `bank
      ensures cycle == old(cycle) && irqs == old(irqs) && (!old(counters[i]).Running() ==> nextCounter == old(nextCounter))
      ensures counters[..] == old(counters[..])[i := Retargeted(old(counters[i]), value, cycle)]
      ensures value % 0x10000 > 0 ==>
                && Valid()
                && bank == old(bank).(timers := old(bank).timers[i := WithTarget(old(bank).timers[i], value % 0x10000)])
      ensures value % 0x10000 == 0 ==> counters[i].IsFuture() && Scheduled(counters[..], nextsCounter + nextCounter)
    {
      hide Counter.Due, Counter.At, Counter.Ok, Retargeted, Missed;
      ghost var cs := counters[..];
      assert forall j :: 0 <= j < 4 ==> cs[j] == counters[j];
      if value % 0x10000 > 0 { RetargetedStands(cs[i], value, cycle); }
      RetargetedDue(cs[i], value, cycle);
      Retarget(i, value);
      bank := bank.(timers := bank.timers[i := WithTarget(bank.timers[i], value % 0x10000)]);
      assert counters[i] == counters[..][i];
      RcntSet(i);
    }

    static lemma RetargetedDue(c: Counter, v: nat, now: int)
      requires c.Ok(now)
      ensures var d := Retargeted(c, v, now);
              !Missed(d) && d.clock == c.clock && (v % 0x10000 == 0 ==> d.IsFuture())
    {
      hide Counter.Elapsed, Counter.Due, Counted, Counter.Target, Counter.At;
      if c.Running() {
        CountedIs(c, now);
        BelowLimit(c, now);
      }
    }

    /** The arithmetic of `rcntWtarget`. */
    method Retarget(i: nat, value: nat)
      requires i < counters.Length
      modifies counters
      ensures counters[..] == old(counters[..])[i := Retargeted(old(counters[i]), value, cycle)]
    {
      hide Counted;
      if counters[i].Running() { CountUp(i); }
      var target := value % 0x10000;
      if target <= counters[i].count { target := target + FUTURE_TARGET; }
      counters[i] := counters[i].(target := target);
    }

    /** A counter brought up to date for a mode write. */
    static function Current(c: Counter, now: int): Counter {
      if c.Running() then Counted(c, now) else if c.clock == Stopped then c.(sCycleT := now) else c
    }

    /** rcntWmode on one counter. */
    static function Remoded(c: Counter, m: Mode, now: int): Counter { InMode(Current(c, now), m, now) }

    static function InMode(c: Counter, m: Mode, now: int): Counter { GateSet(Moded(c, m), m, now) }

    static function Moded(c: Counter, m: Mode): Counter {
      c.(clock := if m.counting then m.Source() else Stopped, rate := m.rate, zeroReturn := m.zeroReturn,
         targetInt := m.targetInt, overflowInt := m.overflowInt,
         targetReached := c.targetReached && !m.clearTarget, overflowReached := c.overflowReached && !m.clearOverflow)
    }

    static function GateSet(c: Counter, m: Mode, now: int): Counter {
      if m.GateOf().Gated? then c.(clock := Stopped, count := 0, sCycleT := now) else c
    }

    /** Cycles that a mode write leaves uncounted: for a counter of blanks, all since the last update. */
    static function Uncounted(c: Counter, now: int): nat {
      if c.clock == Stopped || now < c.sCycleT then 0
      else if c.Running() then (now - c.sCycleT) % c.rate
      else now - c.sCycleT
    }

    static lemma RemodedFields(c: Counter, m: Mode, now: int)
      requires c.Ok(now)
      ensures var d := Remoded(c, m, now); var gated := m.GateOf().Gated?;
              && c.sCycleT <= now
              && d == Counter(m.Clocked(), m.rate, if gated then 0 else c.At(now).count, c.target,
                              if gated then now else now - Uncounted(c, now), m.zeroReturn, m.targetInt, m.overflowInt,
                              c.targetReached && !m.clearTarget, c.overflowReached && !m.clearOverflow)
    {
      hide Counter.At, Counter.Elapsed, Counter.Target, Uncounted, Current;
      CurrentFields(c, now);
    }

    static lemma CurrentFields(c: Counter, now: int)
      requires c.Ok(now)
      ensures Current(c, now) == c.(count := c.At(now).count, sCycleT := now - Uncounted(c, now))
    {
      hide Counter.At, Counted, Counter.Due, Counter.Target;
      CountedIs(c, now);
      AtCount(c, now);
    }

    /** A mode write leaves the count that a program reads as it was if and only if less than one count of
        the new rate is uncounted. */
    static lemma ModeKeepsCount(c: Counter, m: Mode, now: int)
      requires c.Ok(now) && !m.GateOf().Gated?
      ensures Remoded(c, m, now).At(now).count == c.At(now).count <==> (m.Clocked() == Cycles ==> Uncounted(c, now) < m.rate)
    {
      hide Remoded, Uncounted, Counter.Due, Counter.Target, Counter.Ok;
      RemodedFields(c, m, now);
      DivBelow(Uncounted(c, now), m.rate, 1);
      AtCount(Remoded(c, m, now), now);
    }

    /** The next event of the counter is still ahead: after the uncounted cycles, its count is below its target,
        or below its end if the target was reached. */
    static predicate Kept(c: Counter, m: Mode, now: int) {
      var limit := if c.IsFuture() then 0x10000 else c.target;
      match m.Clocked()
      case Stopped => true
      case Cycles => c.At(now).count + Uncounted(c, now) / m.rate < limit
      case Hblanks => c.At(now).count < limit
    }

    /** After a mode write, the counter stands for the hardware's timer with the new mode; the event that it
        waits for is ahead exactly if the count reached is below it. */
    static lemma RemodedStands(c: Counter, m: Mode, now: int)
      requires c.Ok(now)
      ensures var d := Remoded(c, m, now);
              d.At(now) == WithMode(c.At(now), m, Uncounted(c, now)) && (d.Ok(now) <==> Kept(c, m, now))
    {
      hide Counted, Counter.Target, Counter.Due, Counter.Elapsed, Counter.At, Uncounted, Remoded, Counter.Ok, WithMode;
      var d := Remoded(c, m, now);
      RemodedFields(c, m, now);
      RemodedAt(c, m, now);
      CountLeft(c, now);
      RemodedOk(c, d, Uncounted(c, now), now);
    }

    static lemma RemodedAt(c: Counter, m: Mode, now: int)
      requires c.Ok(now)
      ensures Remoded(c, m, now).At(now) == WithMode(c.At(now), m, Uncounted(c, now))
    {
      hide Counter.Target, Counter.Due, Counter.Elapsed, Counter.At, Uncounted, Remoded, Counter.Ok, Mode.Clocked,
           Mode.GateOf, Late;
      var d := Remoded(c, m, now);
      RemodedFields(c, m, now);
      AtFields(c, now);
      SameTarget(c, d);
      GatedStops(m);
      AtLate(d, now, Uncounted(c, now));
    }

    static lemma AtLate(d: Counter, now: int, e: nat)
      requires d.sCycleT <= now && (d.Running() ==> now - d.sCycleT == e)
      ensures d.At(now) == Late(Timer(d.clock, d.rate, d.count, 0, d.Target(), d.IsFuture(), d.zeroReturn, d.targetInt,
                                      d.overflowInt, d.targetReached, d.overflowReached), e)
    {}

    static lemma GatedStops(m: Mode)
      ensures m.GateOf().Gated? ==> m.Clocked() == Stopped
    {}

    static lemma RemodedOk(c: Counter, d: Counter, e: nat, now: int)
      requires c.Ok(now) && d.target == c.target && d.count < 0x10000 && d.sCycleT <= now
      requires d.Running() ==> d.sCycleT == now - e
      ensures d.Ok(now) <==>
              (d.clock != Stopped ==> d.count + (if d.Running() then e / d.rate else 0) < if d.IsFuture() then 0x10000 else d.target)
    {
      hide Counter.Due;
      OkFields(c, d);
      if d.Running() { DueIs(d, now, e); }
    }

    static lemma OkFields(c: Counter, d: Counter)
      requires c.target == d.target
      ensures c.Target() == d.Target() && (c.IsFuture() <==> d.IsFuture())
    {}

    static lemma DueIs(d: Counter, now: int, e: nat)
      requires d.sCycleT == now - e
      ensures d.Ahead() > 0 && now < d.Due() <==> d.count + e / d.rate < if d.IsFuture() then 0x10000 else d.target
    {
      assert e / d.rate >= 0;
      if d.Ahead() > 0 { DivBelow(e, d.rate, d.Ahead()); }
    }

    /** The counting part of `rcntWmode`. */
    method BringUp(i: nat)
      requires i < counters.Length
      modifies counters
      ensures counters[..] == old(counters[..])[i := Current(old(counters[i]), cycle)]
    {
      hide Counted;
      if counters[i].clock == Cycles {
        CountUp(i);
      } else if counters[i].clock == Stopped {
        counters[i] := counters[i].(sCycleT := cycle);
      }
    }

    /** `_rcntSetGate` after the mode is written. */
    method RcntSetGate(i: nat, m: Mode)
      requires i < counters.Length && i < |gates|
      modifies counters, `gates
      ensures gates == old(gates)[i := m.GateOf()]
      ensures counters[..] == old(counters[..])[i := GateSet(old(counters[i]), m, cycle)]
    {
      if m.enableGate {
        if !(!m.onVblank && m.hblanks) {
          gates := gates[i := Gated(m.onVblank, m.gateMode, m.Source())];
          counters[i] := counters[i].(clock := Stopped, count := 0, sCycleT := cycle);
          return;
        }
      }
      gates := gates[i := Ungated];
    }

    /** The arithmetic of `rcntWmode`. */
    method Remode(i: nat, m: Mode)
      requires i < counters.Length && i < |gates|
      modifies counters, `gates
      ensures counters[..] == old(counters[..])[i := Remoded(old(counters[i]), m, cycle)]
      ensures gates == old(gates)[i := m.GateOf()]
    {
      hide Current, Moded, GateSet;
      BringUp(i);
      assert counters[i] == counters[..][i];
      WriteMode(i, m);
      assert counters[i] == counters[..][i];
      RcntSetGate(i, m);
    }

    /** The writes to the mode register and the rate. */
    method WriteMode(i: nat, m: Mode)
      requires i < counters.Length
      modifies counters
      ensures counters[..] == old(counters[..])[i := Moded(old(counters[i]), m)]
    {
      hide Mode.Source;
      var c := counters[i];
      var clock := if m.counting then m.Source() else Stopped;
      var target, overflow := c.targetReached && !m.clearTarget, c.overflowReached && !m.clearOverflow;
      counters[i] := c.(clock := clock, rate := m.rate, zeroReturn := m.zeroReturn, targetInt := m.targetInt,
                        overflowInt := m.overflowInt, targetReached := target, overflowReached := overflow);
    }

    /** `rcntWmode`. */
    method RcntWmode(i: nat, m: Mode)
      requires Valid() && i < 4
      modifies counters, `gates, `nextCounter, `bank
      ensures cycle == old(cycle) && irqs == old(irqs) && gates == old(gates)[i := m.GateOf()]
      ensures m.Clocked() != Cycles ==> nextCounter == old(nextCounter)
      ensures counters[..] == old(counters[..])[i := Remoded(old(counters[i]), m, cycle)]
      ensures bank.irqs == old(bank).irqs
      ensures bank.timers == old(bank).timers[i := WithMode(old(bank).timers[i], m, Uncounted(old(counters[i]), cycle))]
      ensures Valid() <==> Kept(old(counters[i]), m, cycle)
    {
      hide Counter.Due, Counter.At, Counter.Ok, Counter.Target, Remoded, Missed, WithMode, Uncounted, Kept;
      ghost var cs, b := counters[..], bank;
      assert forall j :: 0 <= j < 4 ==> cs[j] == counters[j];
      RemodedStands(cs[i], m, cycle);
      RemodedFields(cs[i], m, cycle);
      if Kept(cs[i], m, cycle) { NothingMissed(Remoded(cs[i], m, cycle), cycle); }
      Remode(i, m);
      bank := bank.(timers := bank.timers[i := WithMode(bank.timers[i], m, Uncounted(cs[i], cycle))]);
      assert counters[i] == counters[..][i];
      RcntSet(i);
    }
  }
}
