/** The scanline and frame timers: each moves its start cycle by fixed steps, and a correction after each
    half frame keeps the scanlines in step with the frames. */
module VideoSync {
  /** The timing of a video mode, in cycles.  `hSyncError` may be negative. */
  datatype Info = Info(render: nat, blank: nat, gsBlank: nat, hRender: nat, hBlank: nat, scanlines: nat,
                       hSyncError: int)

  /** Ten-thousandths of a cycle to cycles, a half rounded up. */
  function Rounded(x: nat): nat { x / 10000 + if x % 10000 >= 5000 then 1 else 0 }

  /** Length of a scanline in ten-thousandths of a cycle. */
  function LineOf(frame: nat, scanlines: nat): nat
    requires scanlines > 0
  {
    frame / scanlines
  }

  /** `vSyncInfoCalc` in an analog mode; `frame` is the length of a frame in ten-thousandths of a cycle. */
  function Calc(frame: nat, scanlines: nat, ntsc: bool): Info
    requires 52 <= scanlines
  {
    var line := LineOf(frame, scanlines);
    var half := frame / 2;
    var blank := line * if ntsc then 22 else 26;
    var render := if half < blank then 0 else half - blank;
    var hBlank := line / 2;
    var hRender := line - hBlank;
    var h := Rounded(hRender) + Rounded(hBlank);
    Info(Rounded(render), Rounded(blank), line * 7 / 2 / 10000, Rounded(hRender), Rounded(hBlank), scanlines,
         Rounded(render) + Rounded(blank) - h * scanlines / 2)
  }

  lemma RoundedClose(x: nat)
    ensures -5000 <= 10000 * Rounded(x) - x <= 5000
  {}

  lemma BlankFits(frame: nat, scanlines: nat, k: nat)
    requires 52 <= scanlines && k <= 26
    ensures LineOf(frame, scanlines) * k <= frame / 2
    ensures 0 <= frame - scanlines * (LineOf(frame, scanlines)) < scanlines
  {
    var line := LineOf(frame, scanlines);
    assert frame == scanlines * line + frame % scanlines;
    MulMono(52, scanlines, line);
    MulMono(k, 26, line);
  }

  lemma MulMono(a: nat, b: nat, x: nat)
    requires a <= b
    ensures a * x <= b * x
  {}

  /** Cycles in a half frame, and in a scanline. */
  function HalfCycles(i: Info): nat { i.render + i.blank }

  function LineCycles(i: Info): nat { i.hRender + i.hBlank }

  lemma HalfIsClose(frame: nat, scanlines: nat, ntsc: bool)
    requires 52 <= scanlines
    ensures -10000 <= 10000 * HalfCycles(Calc(frame, scanlines, ntsc)) - frame / 2 <= 10000
  {
    hide Rounded;
    var k := if ntsc then 22 else 26;
    BlankFits(frame, scanlines, k);
    var blank := LineOf(frame, scanlines) * k;
    RoundedClose(frame / 2 - blank);
    RoundedClose(blank);
  }

  lemma LineIsClose(frame: nat, scanlines: nat, ntsc: bool)
    requires 52 <= scanlines
    ensures -10000 <= 10000 * LineCycles(Calc(frame, scanlines, ntsc)) - LineOf(frame, scanlines) <= 10000
  {
    hide Rounded;
    var line := LineOf(frame, scanlines);
    RoundedClose(line / 2);
    RoundedClose(line - line / 2);
  }

  lemma ErrorIs(frame: nat, scanlines: nat, ntsc: bool)
    requires 52 <= scanlines
    ensures var i := Calc(frame, scanlines, ntsc);
            i.hSyncError == HalfCycles(i) - LineCycles(i) * scanlines / 2 && i.scanlines == scanlines
  {
    hide Rounded;
  }

  /** The correction is small: at most half the scanlines and 2 cycles, either way. */
  lemma ErrorIsSmall(frame: nat, scanlines: nat, ntsc: bool)
    requires 52 <= scanlines <= 10000
    ensures -(scanlines + 4) <= 2 * Calc(frame, scanlines, ntsc).hSyncError <= scanlines + 4
  {
    hide Calc, HalfCycles, LineCycles, LineOf;
    var i := Calc(frame, scanlines, ntsc);
    var line := LineOf(frame, scanlines);
    HalfIsClose(frame, scanlines, ntsc);
    LineIsClose(frame, scanlines, ntsc);
    ErrorIs(frame, scanlines, ntsc);
    BlankFits(frame, scanlines, 0);
    ErrorFrom(frame, scanlines, line, HalfCycles(i), LineCycles(i), LineCycles(i) * scanlines, scanlines * line);
  }

  lemma ErrorFrom(frame: nat, n: nat, line: nat, v: nat, h: nat, lines: nat, exact: nat)
    requires n <= 10000 && lines == h * n && exact == n * line && 0 <= frame - exact < n
    requires -10000 <= 10000 * v - frame / 2 <= 10000 && -10000 <= 10000 * h - line <= 10000
    ensures -(n + 4) <= 2 * (v - lines / 2) <= n + 4
  {
    ScaledClose(h, line, n);
    ErrorBound(frame, v, lines, exact, n);
  }

  /** The same in lengths: n lines of rounded and of exact length. */
  lemma ErrorBound(frame: nat, v: nat, lines: nat, exact: nat, n: nat)
    requires n <= 10000 && 0 <= frame - exact < n
    requires -10000 <= 10000 * v - frame / 2 <= 10000
    requires -10000 * n <= 10000 * lines - exact <= 10000 * n
    ensures -(n + 4) <= 2 * (v - lines / 2) <= n + 4
  {}

  lemma ScaledClose(h: nat, line: nat, n: nat)
    requires -10000 <= 10000 * h - line <= 10000
    ensures -10000 * n <= 10000 * (h * n) - n * line <= 10000 * n
  {
    var d := 10000 * h - line;
    assert 10000 * (h * n) - n * line == d * n;
    if d >= 0 { MulMono(d, 10000, n); } else { MulMono(-d, 10000, n); }
  }

  // ---- the two state machines ----

  datatype HMode = HRender | HBlank

  datatype VMode = VRender | GsBlank | VSync

  class SyncTimers {
    const info: Info
    var hCycle: int     // hsyncCounter.sCycle
    var hDelta: int     // hsyncCounter.CycleT
    var hMode: HMode
    var vCycle: int
    var vDelta: int
    var vMode: VMode

    ghost const origin: int
    ghost var lines: nat      // scanlines finished
    ghost var renders: nat    // half frames rendered
    ghost var loops: nat      // half frames finished

    /** Where the start cycles are, whatever the cycles at which the updates ran. */
    ghost predicate Valid()
      reads this
    {
      && vCycle == origin + HalfCycles(info) * loops + (if vMode == VRender then 0 else info.render)
      && renders == loops + (if vMode == VRender then 0 else 1)
      && hCycle == origin + LineCycles(info) * lines + info.hSyncError * renders + (if hMode == HRender then 0 else info.hRender)
    }

    /** As `rcntInit` leaves them, once the timing is known. */
    constructor (info: Info, cycle: int)
      ensures Valid() && this.info == info && origin == cycle && lines == 0 && loops == 0 && hMode == HRender && vMode == VRender
    {
      this.info, origin := info, cycle;
      hCycle, hDelta, hMode := cycle, 0, HRender;
      vCycle, vDelta, vMode := cycle, 0, VRender;
      lines, renders, loops := 0, 0, 0;
    }

    /** `rcntUpdate_hScanline`. */
    method UpdateHScanline(cycle: int)
      requires Valid()
      modifies `hCycle, `hDelta, `hMode, `lines
      ensures Valid()
      ensures cycle - old(hCycle) < old(hDelta) ==> hMode == old(hMode) && lines == old(lines)
      ensures cycle - old(hCycle) >= old(hDelta) ==>
                hMode != old(hMode) && lines == old(lines) + (if old(hMode) == HBlank then 1 else 0)
    {
      if cycle - hCycle < hDelta { return; }
      if hMode == HBlank {
        hCycle := hCycle + info.hBlank;
        hDelta := info.hRender;
        hMode := HRender;
        MulStep(LineCycles(info), lines);
        lines := lines + 1;
      } else {
        hCycle := hCycle + info.hRender;
        hDelta := info.hBlank;
        hMode := HBlank;
      }
    }

    /** `rcntUpdate_vSync`. */
    method UpdateVSync(cycle: int)
      requires Valid()
      modifies `vCycle, `vDelta, `vMode, `hCycle, `renders, `loops
      ensures Valid()
      ensures cycle - old(vCycle) < old(vDelta) ==> vMode == old(vMode) && loops == old(loops)
      ensures cycle - old(vCycle) >= old(vDelta) ==>
                && vMode == (if old(vMode) == VRender then GsBlank else if old(vMode) == GsBlank then VSync else VRender)
                && loops == old(loops) + (if old(vMode) == VSync then 1 else 0)
    {
      var diff := cycle - vCycle;
      if diff < vDelta { return; }
      if vMode == VSync {
        vCycle := vCycle + info.blank;
        vDelta := info.render;
        vMode := VRender;
        MulStep(HalfCycles(info), loops);
        loops := loops + 1;
      } else if vMode == GsBlank {
        vMode := VSync;
        vDelta := info.blank;
      } else {
        vCycle := vCycle + info.render;
        vDelta := info.gsBlank;
        vMode := GsBlank;
        hCycle := hCycle + info.hSyncError;
        MulStep(info.hSyncError, renders);
        renders := renders + 1;
      }
    }

    static lemma MulStep(m: int, k: nat)
      ensures m * (k + 1) == m * k + m
    {}

    /** Scanlines do not drift from frames: after k frames and their scanlines, however late the updates
        ran, the two start cycles are apart by k times the parity of a frame's scanlines, in cycles. */
    lemma NoDrift(k: nat)
      requires Valid() && vMode == VRender && hMode == HRender
      requires loops == 2 * k && lines == k * info.scanlines
      requires info.hSyncError == HalfCycles(info) - LineCycles(info) * info.scanlines / 2
      ensures hCycle - vCycle == k * (LineCycles(info) * info.scanlines % 2)
    {
      var total := LineCycles(info) * info.scanlines;
      assert LineCycles(info) * (k * info.scanlines) == k * total;
      assert HalfCycles(info) * (2 * k) == k * (2 * HalfCycles(info));
      assert info.hSyncError * (2 * k) == k * (2 * info.hSyncError);
      assert total + 2 * info.hSyncError - 2 * HalfCycles(info) == total % 2;
      Factor(k, total, 2 * info.hSyncError, 2 * HalfCycles(info));
    }

    static lemma Factor(k: int, a: int, b: int, c: int)
      ensures k * a + k * b - k * c == k * (a + b - c)
    {}
  }
}
