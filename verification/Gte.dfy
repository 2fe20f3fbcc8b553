/** The perspective transforms of the GTE: one vertex (RTPS) and three at once (RTPT).  FLAG is modelled
    as the set of its bits. */
module Gte {
  datatype Vector = Vector(x: int, y: int, z: int)

  datatype Control = Control(r1: Vector, r2: Vector, r3: Vector, tr: Vector, ofx: int, ofy: int, h: nat, dqa: int,
                             dqb: int)

  datatype Point = Point(x: int, y: int)

  /** MAC0-3 or IR0-3, and the queues of screen points and depths. */
  datatype Four = Four(r0: int, r1: int, r2: int, r3: int)

  datatype Points = Points(xy0: Point, xy1: Point, xy2: Point)

  datatype Depths = Depths(x: int, z0: int, z1: int, z2: int)

  /** The data registers that the transforms write. */
  datatype Regs = Regs(flag: set<nat>, mac: Four, ir: Four, sxy: Points, sz: Depths)

  /** A conversion to s32. */
  function Wrap32(x: int): int { (x + 0x8000_0000) % 0x1_0000_0000 - 0x8000_0000 }

  function Clamp(x: int, lo: int, hi: int): int { if x < lo then lo else if x > hi then hi else x }

  /** The bit that a clamp sets. */
  function Limit(x: int, lo: int, hi: int, bit: nat): set<nat> { if x < lo || x > hi then {bit} else {} }

  /** The two bits of an overflow below or above the range of s32. */
  function Overflow(x: int, below: nat, above: nat): set<nat> {
    if x < -0x8000_0000 then {below} else if x > 0x7fff_ffff then {above} else {}
  }

  /** One row of the matrix, before it is put into MAC: the products are summed in 32 bits. */
  function Row(r: Vector, v: Vector, t: int): int { Wrap32(r.x * v.x + r.y * v.y + r.z * v.z) / 4096 + t }

  const TWO := 0x2_0000

  /** The projection factor, and whether it was limited. */
  function Divided(h: nat, sz: int): int {
    if sz <= 0 then TWO else if h * 0x1_0000 / sz > TWO then TWO else h * 0x1_0000 / sz
  }

  function DivideLimit(h: nat, sz: int): set<nat> {
    if sz <= 0 || h * 0x1_0000 / sz > TWO then {17} else {}
  }

  /** The bits that make the error bit 31. */
  predicate HasError(f: set<nat>) { exists b :: b in f && (13 <= b <= 18 || 23 <= b <= 30) }

  function Summed(f: set<nat>): set<nat> { if HasError(f) then f + {31} else f }

  /** What the transform of one vertex computes: MAC1-3, SZ, the point, and the factor. */
  datatype Projected = Projected(mac1: int, mac2: int, mac3: int, sz: int, ir1: int, ir2: int, point: Point,
                                 factor: int)

  function Project(c: Control, v: Vector): Projected {
    var m1, m2, m3 := Wrap32(Row(c.r1, v, c.tr.x)), Wrap32(Row(c.r2, v, c.tr.y)), Wrap32(Row(c.r3, v, c.tr.z));
    var ir1, ir2 := Clamp(m1, -32768, 32767), Clamp(m2, -32768, 32767);
    var sz := Clamp(m3, 0, 65535);
    var f := Divided(c.h, sz);
    Projected(m1, m2, m3, sz, ir1, ir2,
              Point(Clamp((c.ofx + ir1 * f) / 0x1_0000, -1024, 1023), Clamp((c.ofy + ir2 * f) / 0x1_0000, -1024, 1023)), f)
  }

  /** The bits that one vertex sets on the way, whichever instruction it is in. */
  function ProjectFlags(c: Control, v: Vector): set<nat> {
    var p := Project(c, v);
    Overflow(Row(c.r1, v, c.tr.x), 29, 26) + Overflow(Row(c.r2, v, c.tr.y), 28, 25) + Overflow(Row(c.r3, v, c.tr.z), 27, 24)
    + Limit(p.mac1, -32768, 32767, 24) + Limit(p.mac2, -32768, 32767, 23) + Limit(p.mac3, 0, 65535, 18)
    + DivideLimit(c.h, p.sz)
    + Overflow((c.ofx + p.ir1 * p.factor) / 0x1_0000, 15, 16) + Limit((c.ofx + p.ir1 * p.factor) / 0x1_0000, -1024, 1023, 14)
    + Overflow((c.ofy + p.ir2 * p.factor) / 0x1_0000, 15, 16) + Limit((c.ofy + p.ir2 * p.factor) / 0x1_0000, -1024, 1023, 13)
  }

  /** Depth cueing, which comes from the last vertex. */
  function Depth(c: Control, factor: int): int { c.dqb + c.dqa * factor }

  /** The part of it that goes to IR0. */
  function DepthIr(c: Control, factor: int): int { Depth(c, factor) / 4096 }

  function LastFlags(c: Control, p: Projected): set<nat> {
    Limit(p.mac3, -32768, 32767, 22) + Limit(DepthIr(c, p.factor), 0, 65535, 12)
  }

  /** FLAG after one vertex, and after the last steps, from what it was. */
  function ProjectFrom(c: Control, v: Vector, f: set<nat>): set<nat> { f + ProjectFlags(c, v) }

  function LastFrom(c: Control, p: Projected, f: set<nat>): set<nat> { f + LastFlags(c, p) }

  /** RTPS on a vertex. */
  function Rtps(c: Control, r: Regs, v: Vector): Regs {
    var p := Project(c, v);
    Regs(Summed(LastFrom(c, p, ProjectFrom(c, v, {}))), Four(Wrap32(Depth(c, p.factor)), p.mac1, p.mac2, p.mac3),
         Four(Clamp(DepthIr(c, p.factor), 0, 65535), p.ir1, p.ir2, Clamp(p.mac3, -32768, 32767)),
         Points(r.sxy.xy1, r.sxy.xy2, p.point), Depths(r.sz.z0, r.sz.z1, r.sz.z2, p.sz))
  }

  /** The bits that only the last vertex of RTPT sets. */
  const ONLY_LAST: set<nat> := {22, 12}

  /** RTPT: the three queue places are filled from the three vertices; MAC, IR and depth cueing come from
      the last. */
  function Rtpt(c: Control, r: Regs, v0: Vector, v1: Vector, v2: Vector): Regs {
    var p0, p1, p2 := Project(c, v0), Project(c, v1), Project(c, v2);
    Regs(Summed(LastFrom(c, p2, ProjectFrom(c, v2, ProjectFrom(c, v1, ProjectFrom(c, v0, {}))))),
         Four(Wrap32(Depth(c, p2.factor)), p2.mac1, p2.mac2, p2.mac3),
         Four(Clamp(DepthIr(c, p2.factor), 0, 65535), p2.ir1, p2.ir2, Clamp(p2.mac3, -32768, 32767)),
         Points(p0.point, p1.point, p2.point), Depths(r.sz.z2, p0.sz, p1.sz, p2.sz))
  }

  lemma ProjectFlagsRange(c: Control, v: Vector)
    ensures ProjectFlags(c, v) !! ONLY_LAST && 31 !in ProjectFlags(c, v)
  {
    hide Row, Project, Wrap32, Limit, Overflow, DivideLimit;
    var p := Project(c, v);
    OverflowBits(Row(c.r1, v, c.tr.x), 29, 26);
    OverflowBits(Row(c.r2, v, c.tr.y), 28, 25);
    OverflowBits(Row(c.r3, v, c.tr.z), 27, 24);
    LimitBits(p.mac1, -32768, 32767, 24);
    LimitBits(p.mac2, -32768, 32767, 23);
    LimitBits(p.mac3, 0, 65535, 18);
    DivideBits(c.h, p.sz);
    var x, y := (c.ofx + p.ir1 * p.factor) / 0x1_0000, (c.ofy + p.ir2 * p.factor) / 0x1_0000;
    OverflowBits(x, 15, 16);
    OverflowBits(y, 15, 16);
    LimitBits(x, -1024, 1023, 14);
    LimitBits(y, -1024, 1023, 13);
  }

  lemma LimitBits(x: int, lo: int, hi: int, bit: nat)
    ensures forall b :: b in Limit(x, lo, hi, bit) ==> b == bit
  {}

  lemma OverflowBits(x: int, below: nat, above: nat)
    ensures forall b :: b in Overflow(x, below, above) ==> b == below || b == above
  {}

  lemma DivideBits(h: nat, sz: int)
    ensures forall b :: b in DivideLimit(h, sz) ==> b == 17
  {}

  lemma LastFlagsRange(c: Control, p: Projected)
    ensures LastFlags(c, p) <= ONLY_LAST
  {}

  /** The error bit of a union, where bits 22 and 12 do not count. */
  lemma SummedUnion(a: set<nat>, b: set<nat>, c: set<nat>, x: set<nat>, y: set<nat>, z: set<nat>)
    requires x <= ONLY_LAST && y <= ONLY_LAST && z <= ONLY_LAST
    requires a !! ONLY_LAST && b !! ONLY_LAST && c !! ONLY_LAST
    ensures Summed(a + b + c + z) == (Summed(a + x) - ONLY_LAST) + (Summed(b + y) - ONLY_LAST) + Summed(c + z)
  {
    ErrorOf(a, x);
    ErrorOf(b, y);
    ErrorOf(c, z);
    ErrorOf(a + b + c, z);
    assert HasError(a + b + c) <==> HasError(a) || HasError(b) || HasError(c) by { ErrorOfUnion(a, b, c); }
    hide HasError;
  }

  lemma ErrorOfUnion(a: set<nat>, b: set<nat>, c: set<nat>)
    ensures HasError(a + b + c) <==> HasError(a) || HasError(b) || HasError(c)
  {}

  lemma ErrorOf(a: set<nat>, x: set<nat>)
    requires x <= ONLY_LAST
    ensures HasError(a + x) <==> HasError(a)
  {
    forall i | i in x ensures i == 22 || i == 12 { assert i in ONLY_LAST; }
  }

  /** RTPT is three RTPS, on the three vertices in turn: the same queues, MAC and IR registers, and the
      union of the three FLAGs, but bits 22 and 12 from the last one only. */
  lemma RtptIsThreeRtps(c: Control, r: Regs, v0: Vector, v1: Vector, v2: Vector)
    ensures var a := Rtps(c, r, v0); var b := Rtps(c, a, v1); var d := Rtps(c, b, v2); var t := Rtpt(c, r, v0, v1, v2);
            && t.(flag := {}) == d.(flag := {})
            && t.flag == (a.flag - ONLY_LAST) + (b.flag - ONLY_LAST) + d.flag
  {
    hide Project, ProjectFlags, LastFlags, Summed, Wrap32, Clamp, Depth;
    ProjectFlagsRange(c, v0);
    ProjectFlagsRange(c, v1);
    ProjectFlagsRange(c, v2);
    LastFlagsRange(c, Project(c, v0));
    LastFlagsRange(c, Project(c, v1));
    LastFlagsRange(c, Project(c, v2));
    SummedUnion(ProjectFlags(c, v0), ProjectFlags(c, v1), ProjectFlags(c, v2),
                LastFlags(c, Project(c, v0)), LastFlags(c, Project(c, v1)), LastFlags(c, Project(c, v2)));
    assert {} + ProjectFlags(c, v0) + ProjectFlags(c, v1) + ProjectFlags(c, v2) + LastFlags(c, Project(c, v2))
           == ProjectFlags(c, v0) + ProjectFlags(c, v1) + ProjectFlags(c, v2) + LastFlags(c, Project(c, v2));
    assert forall f: set<nat> :: {} + f == f;
  }

  /** Screen coordinates are always in range, and depths too. */
  lemma ScreenRange(c: Control, v: Vector)
    ensures var p := Project(c, v);
            && -1024 <= p.point.x <= 1023 && -1024 <= p.point.y <= 1023 && 0 <= p.sz <= 65535 && 0 <= p.factor <= TWO
  {
    hide Row, Wrap32;
    var p := Project(c, v);
    FactorRange(c.h, p.sz);
  }

  lemma FactorRange(h: nat, sz: int)
    ensures 0 <= Divided(h, sz) <= TWO
  {
    if sz > 0 { QuotientNat(h * 0x1_0000, sz); }
  }

  lemma QuotientNat(x: nat, n: nat)
    requires n > 0
    ensures x / n >= 0
  {}

  // ---- in place ----

  class GteUnit {
    var control: Control
    var flag: set<nat>
    var mac: Four
    var ir: Four
    var sxy: Points
    var sz: Depths

    ghost function View(): Regs
      reads this
    {
      Regs(flag, mac, ir, sxy, sz)
    }

    /** The clamp helpers. */
    method Flim(x: int, lo: int, hi: int, bit: nat) returns (y: int)
      modifies `flag
      ensures y == Clamp(x, lo, hi) && flag == old(flag) + Limit(x, lo, hi, bit)
    {
      y := x;
      if x < lo { y := lo; flag := flag + {bit}; }
      else if x > hi { y := hi; flag := flag + {bit}; }
    }

    /** `FNC_OVERFLOW1` to `3`. */
    method FncOverflow(x: int, below: nat, above: nat) returns (y: int)
      modifies `flag
      ensures y == Wrap32(x) && flag == old(flag) + Overflow(x, below, above)
    {
      if x < -0x8000_0000 { flag := flag + {below}; } else if x > 0x7fff_ffff { flag := flag + {above}; }
      y := Wrap32(x);
    }

    /** `FlimG1` and `FlimG2`. */
    method FlimG(x: int, bit: nat) returns (y: int)
      modifies `flag
      ensures y == Clamp(x, -1024, 1023) && flag == old(flag) + Overflow(x, 15, 16) + Limit(x, -1024, 1023, bit)
    {
      if x > 0x7fff_ffff { flag := flag + {16}; } else if x < -0x8000_0000 { flag := flag + {15}; }
      y := x;
      if x > 1023 { y := 1023; flag := flag + {bit}; } else if x < -1024 { y := -1024; flag := flag + {bit}; }
    }

    /** `GTE_RTPS1`. */
    method Rtps1(v: Vector)
      modifies `flag, `mac
      ensures var p := Project(control, v); mac == Four(old(mac.r0), p.mac1, p.mac2, p.mac3)
      ensures flag == old(flag) + Overflow(Row(control.r1, v, control.tr.x), 29, 26)
                      + Overflow(Row(control.r2, v, control.tr.y), 28, 25) + Overflow(Row(control.r3, v, control.tr.z), 27, 24)
    {
      hide Row, Overflow, Wrap32;
      var m1 := FncOverflow(Row(control.r1, v, control.tr.x), 29, 26);
      var m2 := FncOverflow(Row(control.r2, v, control.tr.y), 28, 25);
      var m3 := FncOverflow(Row(control.r3, v, control.tr.z), 27, 24);
      mac := Four(mac.r0, m1, m2, m3);
    }

    /** `GTE_RTPS2` for a depth that is in its queue place already. */
    method Rtps2(ghost v: Vector, depth: int) returns (point: Point, fdsz: int)
      requires var p := Project(control, v); depth == p.sz && ir.r1 == p.ir1 && ir.r2 == p.ir2
      modifies `flag
      ensures var p := Project(control, v); point == p.point && fdsz == p.factor
      ensures var p := Project(control, v); var x := (control.ofx + p.ir1 * p.factor) / 0x1_0000;
              var y := (control.ofy + p.ir2 * p.factor) / 0x1_0000;
              flag == old(flag) + DivideLimit(control.h, p.sz)
                      + Overflow(x, 15, 16) + Limit(x, -1024, 1023, 14) + Overflow(y, 15, 16) + Limit(y, -1024, 1023, 13)
    {
      hide Row, Overflow, Limit, Wrap32;
      SzNat(control, v);
      if depth == 0 {
        fdsz := TWO;
        flag := flag + {17};
      } else {
        fdsz := control.h * 0x1_0000 / depth;
        if fdsz > TWO { fdsz := TWO; flag := flag + {17}; }
      }
      ghost var base := flag;
      assert base == old(flag) + DivideLimit(control.h, depth);
      var sx := FlimG((control.ofx + ir.r1 * fdsz) / 0x1_0000, 14);
      var sy := FlimG((control.ofy + ir.r2 * fdsz) / 0x1_0000, 13);
      point := Point(sx, sy);
    }

    static lemma SzNat(c: Control, v: Vector)
      ensures Project(c, v).sz >= 0
    {
      hide Row, Wrap32;
    }

    /** One vertex up to its point; the third component of IR is left alone. */
    method Vertex(v: Vector) returns (point: Point, depth: int, fdsz: int)
      modifies `flag, `mac, `ir
      ensures var p := Project(control, v);
              && mac == Four(old(mac.r0), p.mac1, p.mac2, p.mac3) && ir == Four(old(ir.r0), p.ir1, p.ir2, old(ir.r3))
              && point == p.point && depth == p.sz && fdsz == p.factor
      ensures flag == ProjectFrom(control, v, old(flag))
    {
      hide Row, Overflow, Limit, Wrap32, DivideLimit;
      Rtps1(v);
      depth := Flim(mac.r3, 0, 65535, 18);
      var i1 := Flim(mac.r1, -32768, 32767, 24);
      var i2 := Flim(mac.r2, -32768, 32767, 23);
      ir := Four(ir.r0, i1, i2, ir.r3);
      point, fdsz := Rtps2(v, depth);
    }

    /** What is left for the last vertex: IR3, and `GTE_RTPS3`. */
    method Rtps3(ghost p: Projected, fdsz: int)
      requires mac.r3 == p.mac3 && fdsz == p.factor
      modifies `flag, `mac, `ir
      ensures mac == old(mac).(r0 := Wrap32(Depth(control, fdsz)))
      ensures ir == Four(Clamp(DepthIr(control, fdsz), 0, 65535), old(ir.r1), old(ir.r2), Clamp(old(mac.r3), -32768, 32767))
      ensures flag == LastFrom(control, p, old(flag))
    {
      var i3 := Flim(mac.r3, -32768, 32767, 22);
      var d := control.dqb + control.dqa * fdsz;
      mac := mac.(r0 := Wrap32(d));
      var i0 := Flim(d / 4096, 0, 65535, 12);
      ir := Four(i0, ir.r1, ir.r2, i3);
    }

    /** `SUM_FLAG`. */
    method SumFlag()
      modifies `flag
      ensures flag == Summed(old(flag))
    {
      hide HasError;
      if (exists b :: b in flag && (13 <= b <= 18 || 23 <= b <= 30)) { flag := flag + {31}; }
      assert HasError(old(flag)) <==> exists b :: b in old(flag) && (13 <= b <= 18 || 23 <= b <= 30) by { ErrorIs(old(flag)); }
    }

    static lemma ErrorIs(f: set<nat>)
      ensures HasError(f) <==> exists b :: b in f && (13 <= b <= 18 || 23 <= b <= 30)
    {}

    /** `gteRTPS`. */
    method GteRTPS(v: Vector)
      modifies this
      ensures View() == Rtps(control, old(View()), v) && control == old(control)
    {
      hide Project, ProjectFrom, LastFrom, Clamp, Wrap32, Summed, Depth, DepthIr;
      flag := {};
      var point, depth, fdsz := Vertex(v);
      sz := Depths(sz.z0, sz.z1, sz.z2, depth);
      sxy := Points(sxy.xy1, sxy.xy2, point);
      Rtps3(Project(control, v), fdsz);
      SumFlag();
    }

    /** `gteRTPT`. */
    method GteRTPT(v0: Vector, v1: Vector, v2: Vector)
      modifies this
      ensures View() == Rtpt(control, old(View()), v0, v1, v2) && control == old(control)
    {
      hide Project, ProjectFrom, LastFrom, Clamp, Wrap32, Summed, Depth, DepthIr;
      flag := {};
      sz := sz.(x := sz.z2);
      var point, depth, fdsz := Vertex(v0);
      sxy, sz := sxy.(xy0 := point), sz.(z0 := depth);
      point, depth, fdsz := Vertex(v1);
      sxy, sz := sxy.(xy1 := point), sz.(z1 := depth);
      point, depth, fdsz := Vertex(v2);
      sxy, sz := sxy.(xy2 := point), sz.(z2 := depth);
      Rtps3(Project(control, v2), fdsz);
      SumFlag();
    }
  }
}
