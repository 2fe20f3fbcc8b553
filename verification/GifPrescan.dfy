/** The size scan that XGKICK runs over VU1 memory before it copies a packet, and its agreement with
    the parser. */
module GifPrescan {
  import opened GifTag
  import opened GifParser
  import opened Arith

  /** VU1 memory in quadwords. */
  const VU_QUADS := 1024

  type VuMem = m: seq<Quad> | |m| == 1024 witness Zeros(1024)

  function Zeros(n: nat): (s: seq<Quad>)
    ensures |s| == n
  {
    if n == 0 then [] else [ZERO_QUAD] + Zeros(n - 1)
  }

  function At(mem: VuMem, offset: nat): Quad { mem[offset % VU_QUADS] }

  /** n quadwords from offset on, going round at the end of memory. */
  function Contents(mem: VuMem, offset: nat, n: nat): (s: seq<Quad>)
    ensures |s| == n
    ensures forall i :: 0 <= i < n ==> s[i] == At(mem, offset + i)
  {
    seq(n, i requires 0 <= i < n => At(mem, offset + i))
  }

  /** The number of tags, up to one with EOP, whose data stay below the size of VU memory when
      `used` quadwords were counted before; 0 if there is none. */
  function Scan(mem: VuMem, offset: nat, used: nat): (n: nat)
    requires used < VU_QUADS
    ensures n == 0 || used < n < VU_QUADS
    decreases VU_QUADS - used
  {
    var q := At(mem, offset + used);
    var next := used + 1 + PayloadLen(q);
    if next >= VU_QUADS then 0
    else if Eop(q) then next
    else Scan(mem, offset, next)
  }

  /** `GetGSPacketSize` for path 1. */
  method GetGSPacketSize(mem: VuMem, start: nat) returns (n: nat)
    ensures n == Scan(mem, start, 0)
  {
    var offset, curSize := start, 0;
    while true
      invariant curSize < VU_QUADS && offset == start + curSize
      invariant Scan(mem, start, curSize) == Scan(mem, start, 0)
      decreases VU_QUADS - curSize
    {
      var q := At(mem, offset);
      curSize := curSize + 1 + PayloadLen(q);
      offset := offset + 1 + PayloadLen(q);
      if curSize >= VU_QUADS { return 0; }
      if Eop(q) { return curSize; }
    }
  }

  /** Quadwords of the loaded PACKED tag that are still to come. */
  function Remaining(t: Tag): int {
    if t.nLoop == 0 then 0 else t.nLoop * t.nRegs - t.nRegIdx
  }

  lemma RemainingSteps(t: Tag)
    requires t.nLoop > 0 && t.nRegIdx < t.nRegs
    ensures var t1 := t.PackedStep();
            && Remaining(t1) == Remaining(t) - 1 >= 0
            && (t1.nLoop > 0 ==> t1.nRegIdx < t1.nRegs)
  {
    MulDistributes(t.nRegs, t.nLoop, 1);
    if t.nLoop > 1 { MulAtLeast(t.nRegs, t.nLoop - 1); }
  }

  /** The parser at p ends up at q with handler gs1, the end of a tag, having eaten k quadwords. */
  ghost predicate Eats(p: Path, gs: Handler, ctx: Ctx, k: nat, hdr: Quad, q: Path, gs1: Handler)
    requires |p.tag.regs| == 16
  {
    && k <= |p.rest| && q.rest == p.rest[k..] && q.pack == p.pack + p.rest[..k]
    && !q.tag.isValid && |q.tag.regs| == 16
    && Exec(p, gs, ctx) == if Eop(hdr) then Finished(q, gs1, ctx) else Exec(q, gs1, ctx)
  }

  /** The loop over A+D data eats exactly what the tag announced, unless a SIGNAL stalls it. */
  lemma {:induction false} PackedEats(p: Path, gs: Handler, ctx: Ctx) returns (q: Path, gs1: Handler)
    requires p.tag.isValid && |p.tag.regs| == 16 && (p.tag.nLoop > 0 ==> p.tag.nRegIdx < p.tag.nRegs)
    requires 0 <= Remaining(p.tag) <= |p.rest|
    ensures Exec(p, gs, ctx).stalled || Eats(p, gs, ctx, Remaining(p.tag), p.tag.hdr, q, gs1)
    decreases |p.rest|
  {
    hide Eop, Finished, HandleAD, Exec, Remaining;
    ExecIs(p, gs, ctx);
    var t := TurnOf(p, gs);
    q, gs1 := p, gs;
    if p.tag.nLoop == 0 {
      NothingRemains(p.tag);
      q := p.(tag := p.tag.(isValid := false));
      assert p.pack + p.rest[..0] == p.pack;
    } else {
      RemainingSteps(p.tag);
      assert t == PackedTurn(p, gs);
      if t.Go? {
        q, gs1 := PackedEats(t.path, t.gs, ctx);
        EatsOneMore(p, gs, t.path, t.gs, ctx, q, gs1);
      }
    }
  }

  lemma NothingRemains(t: Tag)
    requires t.nLoop == 0
    ensures Remaining(t) == 0
  {}

  lemma EatsOneMore(p: Path, gs: Handler, p1: Path, gs0: Handler, ctx: Ctx, q: Path, gs1: Handler)
    requires |p.tag.regs| == 16 && |p1.tag.regs| == 16 && p.rest != []
    requires p1.rest == p.rest[1..] && p1.pack == p.pack + p.rest[..1] && Exec(p, gs, ctx) == Exec(p1, gs0, ctx)
    requires 0 <= Remaining(p1.tag) == Remaining(p.tag) - 1 && p1.tag.hdr == p.tag.hdr
    ensures Eats(p1, gs0, ctx, Remaining(p1.tag), p.tag.hdr, q, gs1) ==> Eats(p, gs, ctx, Remaining(p.tag), p.tag.hdr, q, gs1)
  {
    hide Eop, Finished, Exec, Remaining;
    var k := Remaining(p1.tag);
    if k <= |p1.rest| {
      assert p.pack + p.rest[..1] + p.rest[1..][..k] == p.pack + p.rest[..1 + k];
      assert p.rest[1..][k..] == p.rest[1 + k..];
    }
  }

  /** A tag whose data is all there is eaten with its data. */
  lemma TagEats(p: Path, gs: Handler, ctx: Ctx) returns (q: Path, gs1: Handler)
    requires !p.tag.isValid && |p.tag.regs| == 16 && p.rest != [] && 1 + PayloadLen(p.rest[0]) <= |p.rest|
    ensures Exec(p, gs, ctx).stalled || Eats(p, gs, ctx, 1 + PayloadLen(p.rest[0]), p.rest[0], q, gs1)
  {
    hide Eop, Finished, HandleAD, Exec, AnyAD, Nibble, Remaining;
    ExecIs(p, gs, ctx);
    var hdr := p.rest[0];
    var t := SetTag(p.tag.regs, hdr);
    var u := TurnOf(p, gs);
    assert u == LoadTag(p, gs);
    q, gs1 := u.path, u.gs;
    if t.hasAD {
      RemainingOfTag(p.tag.regs, hdr);
      q, gs1 := PackedEats(u.path, u.gs, ctx);
      if Eats(u.path, u.gs, ctx, t.len, hdr, q, gs1) {
        assert p.pack + p.rest[..1] + p.rest[1..][..t.len] == p.pack + p.rest[..1 + t.len];
        assert p.rest[1..][t.len..] == p.rest[1 + t.len..];
      }
    }
  }

  lemma RemainingOfTag(regs: seq<nat>, hdr: Quad)
    requires |regs| == 16 && SetTag(regs, hdr).hasAD
    ensures var t := SetTag(regs, hdr);
            Remaining(t) == t.len && (t.nLoop > 0 ==> t.nRegIdx < t.nRegs)
  {
    hide Nibble, AnyAD;
    NRegRange(hdr);
  }

  lemma ContentsSplit(mem: VuMem, offset: nat, k: nat, n: nat)
    requires k <= n
    ensures Contents(mem, offset, n)[..k] == Contents(mem, offset, k)
    ensures Contents(mem, offset, n)[k..] == Contents(mem, offset + k, n - k)
  {}

  lemma FirstOf(mem: VuMem, offset: nat, n: nat, rest: seq<Quad>, more: seq<Quad>)
    requires n > 0 && rest == Contents(mem, offset, n) + more
    ensures |rest| >= n && rest[0] == At(mem, offset)
  {}

  lemma SplitFront(rest: seq<Quad>, data: seq<Quad>, more: seq<Quad>, k: nat, pack: seq<Quad>)
    requires rest == data + more && k <= |data|
    ensures rest[..k] == data[..k] && rest[k..] == data[k..] + more
    ensures pack + data[..k] + data[k..] == pack + data && (k == |data| ==> data[..k] == data && data[k..] + more == more)
  {}

  /** From a tag boundary, the parser eats the quadwords that the scan counted, up to the EOP. */
  lemma {:induction false} ScanExec(mem: VuMem, start: nat, used: nat, p: Path, gs: Handler, more: seq<Quad>)
    requires used < VU_QUADS && Scan(mem, start, used) != 0
    requires !p.tag.isValid && |p.tag.regs| == 16
    requires p.rest == Contents(mem, start + used, Scan(mem, start, used) - used) + more
    ensures var n := Scan(mem, start, used); var r := Exec(p, gs, Ctx(false, false));
            r.stalled || (r.done && r.packet == p.pack + Contents(mem, start + used, n - used) && r.path.rest == more)
    decreases VU_QUADS - used
  {
    hide PayloadLen, Eop, Exec, Contents, NLoop, At;
    var n := Scan(mem, start, used);
    var data := Contents(mem, start + used, n - used);
    var hdr := At(mem, start + used);
    var k := 1 + PayloadLen(hdr);
    FirstOf(mem, start + used, n - used, p.rest, more);
    var q, gs1 := TagEats(p, gs, Ctx(false, false));
    ContentsSplit(mem, start + used, k, n - used);
    SplitFront(p.rest, data, more, k, p.pack);
    if Eop(hdr) {
    } else if Eats(p, gs, Ctx(false, false), k, hdr, q, gs1) {
      ScanExec(mem, start, used + k, q, gs1, more);
    }
  }

  /** Pre-scan agrees with execution: parsing the n quadwords that `GetGSPacketSize` counted either is
      stalled by SIGNAL or completes one packet made of exactly them, and no part of them short of
      all completes a packet. */
  lemma PreScanAgrees(mem: VuMem, start: nat, p: Path, gs: Handler, more: seq<Quad>, k: nat)
    requires Scan(mem, start, 0) != 0 && p.Valid() && !p.tag.isValid
    requires k < Scan(mem, start, 0)
    ensures var n := Scan(mem, start, 0); var data := Contents(mem, start, n);
            var r := Exec(p.(rest := data + more), gs, Ctx(false, false));
            && (r.stalled || (r.done && r.packet == p.pack + data && r.path.rest == more && r.path.state == Idle))
            && !Exec(p.(rest := data[..k]), gs, Ctx(false, false)).done
  {
    hide Scan, Contents, Eop, Exec;
    var n := Scan(mem, start, 0);
    var data := Contents(mem, start, n);
    var ctx := Ctx(false, false);
    var whole := p.(rest := data + more);
    ScanExec(mem, start, 0, whole, gs, more);
    ExecKeepsValid(whole, gs, ctx);
    var part := p.(rest := data[..k]);
    ExecMore(part, gs, ctx, data[k..]);
    assert data[..k] + data[k..] == data;
    assert More(part, data[k..]) == p.(rest := data + []);
    ScanExec(mem, start, 0, p.(rest := data + []), gs, []);
    ExecKeepsValid(part, gs, ctx);
  }
}
