/** One path fed in chunks: how the stream is cut does not matter, and the parser agrees with a
    machine that reads the stream one quadword at a time. */
module GifChunking {
  import opened GifTag
  import opened GifParser
  import opened Arith

  /** A path with what it has handed over: `sent` in order, and the stream positions (`marks`)
      at which a packet ended with EOP. */
  datatype Run = Run(path: Path, gs: Handler, sent: seq<Quad>, marks: seq<nat>)

  const NO_WRITES := Handler(false, false, false, [])
  const INIT_RUN := Run(INIT_PATH, NO_WRITES, [], [])

  ghost predicate RunOk(s: Run) { s.path.Valid() }

  /** What one call of `ExecuteGSPacket` does to a run: wait for data, stop on a queued SIGNAL, or
      hand over a packet. */
  datatype Outcome = Pause(run: Run) | Halt(run: Run) | Packet(run: Run)

  ghost function Once(s: Run, ctx: Ctx): (o: Outcome)
    requires RunOk(s)
    ensures RunOk(o.run) && |o.run.path.rest| <= |s.path.rest|
    ensures o.Packet? ==> |o.run.path.rest| < |s.path.rest|
    ensures !s.gs.queued ==> (o.Halt? <==> o.run.gs.queued)
  {
    ExecKeepsValid(s.path, s.gs, ctx);
    var r := Exec(s.path, s.gs, ctx);
    if !r.done then
      var s1 := s.(path := r.path, gs := r.gs);
      if r.gs.queued then Halt(s1) else Pause(s1)
    else
      var sent := s.sent + r.packet;
      var s1 := Run(r.path, r.gs, sent, s.marks + [|sent|]);
      if r.gs.queued then Halt(s1) else Packet(s1)
  }

  /** `Execute` when only this path has data: packet after packet until nothing is complete. */
  ghost function Drain(s: Run, ctx: Ctx): (d: Run)
    requires RunOk(s)
    ensures RunOk(d)
    decreases |s.path.rest|
  {
    match Once(s, ctx)
    case Pause(s1) => s1
    case Halt(s1) => s1
    case Packet(s1) => if s1.path.IsDone() then s1 else Drain(s1, ctx)
  }

  /** `FlushToMTGS`: a packet without EOP is handed over when all data is parsed. */
  ghost function Flush(s: Run): Run {
    if s.path.rest == [] && s.path.pack != [] && !s.path.tag.isValid
    then s.(sent := s.sent + s.path.pack, path := s.path.(pack := []))
    else s
  }

  /** `CopyGSPacketData` then `Execute`, which refuses to run while a SIGNAL is queued. */
  ghost function Feed(s: Run, chunk: seq<Quad>, ctx: Ctx): (d: Run)
    requires RunOk(s)
    ensures RunOk(d)
  {
    var s1 := s.(path := More(s.path, chunk));
    if s.gs.queued then s1 else Flush(Drain(s1, ctx))
  }

  ghost function FeedAll(s: Run, chunks: seq<seq<Quad>>, ctx: Ctx): (d: Run)
    requires RunOk(s)
    ensures RunOk(d)
    decreases |chunks|
  {
    if chunks == [] then s else FeedAll(Feed(s, chunks[0], ctx), chunks[1..], ctx)
  }

  function Concat(chunks: seq<seq<Quad>>): seq<Quad> {
    if chunks == [] then [] else chunks[0] + Concat(chunks[1..])
  }

  /** The stream parsed so far: delivered bytes followed by pending packet bytes. */
  function Parsed(s: Run): seq<Quad> { s.sent + s.path.pack }

  /** Equal up to where delivered bytes end and pending packet bytes begin. */
  ghost predicate Same(a: Run, b: Run) {
    && a.path.(pack := []) == b.path.(pack := []) && a.gs == b.gs && a.marks == b.marks
    && Parsed(a) == Parsed(b)
  }

  function WithMore(s: Run, more: seq<Quad>): Run { s.(path := More(s.path, more)) }

  /** A run whose delivered bytes are put back in front of the pending packet. */
  function Unsent(s: Run): Run { s.(sent := [], path := s.path.(pack := Parsed(s))) }

  lemma OnceUnsent(s: Run, ctx: Ctx)
    requires RunOk(s)
    ensures RunOk(Unsent(s))
    ensures var o := Once(s, ctx); var u := Once(Unsent(s), ctx);
            (o.Pause? <==> u.Pause?) && (o.Halt? <==> u.Halt?) && Same(o.run, u.run)
  {
    ExecKeepsValid(s.path, s.gs, ctx);
    ExecPrefix(s.path, s.gs, ctx, s.sent);
    ExecConserves(s.path, s.gs, ctx);
    assert Unsent(s).path == Prefixed(s.sent, s.path);
    var r := Exec(s.path, s.gs, ctx);
    assert [] + (s.sent + r.packet) == s.sent + r.packet;
  }

  /** Draining does not depend on how much was already handed over. */
  lemma {:induction false} DrainSame(a: Run, b: Run, ctx: Ctx)
    requires RunOk(a) && RunOk(b) && Same(a, b)
    ensures Same(Drain(a, ctx), Drain(b, ctx))
    decreases |a.path.rest|
  {
    OnceUnsent(a, ctx);
    OnceUnsent(b, ctx);
    assert Unsent(a) == Unsent(b);
    var o, u := Once(a, ctx), Once(b, ctx);
    if o.Packet? && !o.run.path.IsDone() { DrainSame(o.run, u.run, ctx); }
  }

  lemma OnceMore(s: Run, more: seq<Quad>, ctx: Ctx)
    requires RunOk(s) && !ctx.masked && !s.gs.queued
    ensures var o := Once(s, ctx);
            Once(WithMore(s, more), ctx) ==
            if o.Pause? then Once(WithMore(o.run, more), ctx) else o.(run := WithMore(o.run, more))
  {
    ExecKeepsValid(s.path, s.gs, ctx);
    ExecConserves(s.path, s.gs, ctx);
    ExecMore(s.path, s.gs, ctx, more);
  }

  lemma OnceEmpty(s: Run, ctx: Ctx)
    requires RunOk(s) && s.path.rest == [] && !s.path.tag.isValid && !s.gs.queued
    ensures Once(s, ctx) == Pause(s)
  {
    assert TurnOf(s.path, s.gs) == Stop(s.path, s.gs, false);
  }

  /** Draining in two portions is draining once, unless a SIGNAL stops the first. */
  lemma {:induction false} DrainMore(s: Run, more: seq<Quad>, ctx: Ctx)
    requires RunOk(s) && !ctx.masked && !s.gs.queued
    ensures var d := Drain(s, ctx);
            Drain(WithMore(s, more), ctx) == if d.gs.queued then WithMore(d, more) else Drain(WithMore(d, more), ctx)
    decreases |s.path.rest|
  {
    OnceMore(s, more, ctx);
    match Once(s, ctx)
    case Pause(_) =>
    case Halt(_) =>
    case Packet(s1) =>
      if !s1.path.IsDone() {
        DrainMore(s1, more, ctx);
      } else if more == [] {
        ExecConserves(s.path, s.gs, ctx);
        OnceEmpty(s1, ctx);
        assert WithMore(s1, more) == s1;
      }
  }

  lemma FeedTwice(s: Run, x: seq<Quad>, y: seq<Quad>, ctx: Ctx)
    requires RunOk(s) && !ctx.masked
    ensures Same(Feed(Feed(s, x, ctx), y, ctx), Feed(s, x + y, ctx))
  {
    hide Drain;
    assert s.path.rest + x + y == s.path.rest + (x + y);
    if !s.gs.queued {
      var d := Drain(WithMore(s, x), ctx);
      DrainMore(WithMore(s, x), y, ctx);
      assert WithMore(WithMore(s, x), y) == WithMore(s, x + y);
      if d.gs.queued {
        assert Flush(d).path.rest == d.path.rest;
      } else {
        assert Same(Flush(d), d);
        DrainSame(WithMore(Flush(d), y), WithMore(d, y), ctx);
      }
    }
  }

  /** Chunking independence: however a stream is cut, the parser ends in the same state, has made
      the same A+D writes in the same order, has seen the same packet ends, and the bytes handed
      over followed by the pending packet are the same.  A stalling SIGNAL is allowed. */
  lemma {:induction false} ChunkingIndependence(s: Run, chunks: seq<seq<Quad>>, ctx: Ctx)
    requires RunOk(s) && !ctx.masked && chunks != []
    ensures Same(FeedAll(s, chunks, ctx), Feed(s, Concat(chunks), ctx))
    decreases |chunks|
  {
    var s1 := Feed(s, chunks[0], ctx);
    if |chunks| == 1 {
      assert chunks[0] + Concat(chunks[1..]) == chunks[0];
      assert FeedAll(s1, chunks[1..], ctx) == s1;
    } else {
      ChunkingIndependence(s1, chunks[1..], ctx);
      FeedTwice(s, chunks[0], Concat(chunks[1..]), ctx);
    }
  }

  /** The same for two ways of cutting one stream. */
  lemma AnySplit(s: Run, xs: seq<seq<Quad>>, ys: seq<seq<Quad>>, ctx: Ctx)
    requires RunOk(s) && !ctx.masked && xs != [] && ys != [] && Concat(xs) == Concat(ys)
    ensures Same(FeedAll(s, xs, ctx), FeedAll(s, ys, ctx))
  {
    ChunkingIndependence(s, xs, ctx);
    ChunkingIndependence(s, ys, ctx);
  }

  // ---- the reference: a machine that reads one quadword at a time ----

  datatype Mode = AtTag | InTag(hdr: Quad, pos: nat)

  /** `count` quadwords were read, `writes` are the A+D writes, `marks` the ends of packets. */
  datatype Reader = Reader(mode: Mode, writes: seq<Quad>, marks: seq<nat>, count: nat)

  const INIT_READER := Reader(AtTag, [], [], 0)

  function EndOfTag(a: Reader, hdr: Quad): Reader {
    a.(mode := AtTag, marks := if Eop(hdr) then a.marks + [a.count] else a.marks)
  }

  /** Position k of a PACKED payload goes to register k mod NREG. */
  predicate WritesAD(hdr: Quad, pos: nat) {
    Flg(hdr) == Packed && Register(hdr, pos % NReg(hdr)) == AD_REGISTER
  }

  function ReadOne(a: Reader, q: Quad): Reader {
    var b := a.(count := a.count + 1);
    match a.mode
    case AtTag => if PayloadLen(q) == 0 then EndOfTag(b, q) else b.(mode := InTag(q, 0))
    case InTag(hdr, pos) =>
      var c := if WritesAD(hdr, pos) then b.(writes := a.writes + [q]) else b;
      if pos + 1 >= PayloadLen(hdr) then EndOfTag(c, hdr) else c.(mode := InTag(hdr, pos + 1))
  }

  function ReadAll(a: Reader, qs: seq<Quad>): Reader
    decreases |qs|
  {
    if qs == [] then a else ReadOne(ReadAll(a, qs[..|qs| - 1]), qs[|qs| - 1])
  }

  lemma {:induction false} ReadAppend(a: Reader, xs: seq<Quad>, ys: seq<Quad>)
    ensures ReadAll(a, xs + ys) == ReadAll(ReadAll(a, xs), ys)
    decreases |ys|
  {
    if ys == [] {
      assert xs + ys == xs;
    } else {
      assert (xs + ys)[..|xs + ys| - 1] == xs + ys[..|ys| - 1];
      ReadAppend(a, xs, ys[..|ys| - 1]);
    }
  }

  /** A payload without A+D is skipped. */
  lemma {:induction false} ReadPayload(a: Reader, hdr: Quad, qs: seq<Quad>)
    requires a.mode == InTag(hdr, 0) && !(Flg(hdr) == Packed && AnyAD(hdr))
    requires |qs| <= PayloadLen(hdr) && PayloadLen(hdr) > 0
    ensures ReadAll(a, qs) == if |qs| == PayloadLen(hdr) then EndOfTag(a.(count := a.count + |qs|), hdr)
                              else a.(mode := InTag(hdr, |qs|), count := a.count + |qs|)
    decreases |qs|
  {
    if qs != [] {
      ReadPayload(a, hdr, qs[..|qs| - 1]);
      NRegRange(hdr);
    }
  }

  /** What the machine has seen when the parser is at p. */
  function SeenMode(t: Tag): Mode {
    if t.isValid && 0 < t.nLoop <= NLoop(t.hdr)
    then InTag(t.hdr, Position(t))
    else AtTag
  }

  function Seen(p: Path, gs: Handler, marks: seq<nat>, n: nat): Reader {
    Reader(SeenMode(p.tag), gs.writes,
           if p.tag.isValid && p.tag.nLoop == 0 && Eop(p.tag.hdr) then marks + [n] else marks, n)
  }

  lemma PackedPosition(loops: nat, left: nat, regs: nat, idx: nat)
    requires 0 < left <= loops && idx < regs
    ensures var pos := (loops - left) * regs + idx;
            && pos % regs == idx
            && (pos + 1 >= regs * loops <==> left == 1 && idx + 1 == regs)
            && (idx + 1 == regs ==> pos + 1 == (loops - (left - 1)) * regs)
  {
    DivModOf(regs, loops - left, idx);
    MulDistributes(regs, loops, left);
    if left > 1 { MulDistributes(regs, left, 1); MulAtLeast(regs, left - 1); }
  }

  lemma ReadNone(a: Reader)
    ensures ReadAll(a, []) == a
  {}

  lemma ReadSingle(a: Reader, q: Quad)
    ensures ReadAll(a, [q]) == ReadOne(a, q)
  {
    assert [q][..0] == [];
  }

  /** Turn t of the parser at p is the machine reading the quadwords it consumed. */
  ghost predicate TurnIsRead(p: Path, gs: Handler, t: Turn, marks: seq<nat>, n: nat) {
    var k := |p.rest| - |t.path.rest|;
    && 0 <= k <= |p.rest| && t.path.rest == p.rest[k..]
    && ReadAll(Seen(p, gs, marks, n), p.rest[..k]) ==
       Seen(t.path, t.gs, if t.AtEop? then marks + [n + k] else marks, n + k)
  }

  /** A tag without A+D is read with its whole payload. */
  lemma DataTagReads(a: Reader, q: Quad, payload: seq<Quad>)
    requires a.mode == AtTag && !(Flg(q) == Packed && AnyAD(q)) && |payload| == PayloadLen(q)
    ensures ReadAll(a, [q] + payload) == EndOfTag(a.(count := a.count + 1 + |payload|), q)
  {
    hide PayloadLen, ReadAll, AnyAD, ReadOne, Eop, Flg;
    ReadAppend(a, [q], payload);
    ReadSingle(a, q);
    TagReads(a, q);
    PayloadReads(ReadOne(a, q), a, q, payload);
  }

  /** The whole payload is read after the tag. */
  lemma PayloadReads(b: Reader, a: Reader, q: Quad, payload: seq<Quad>)
    requires !(Flg(q) == Packed && AnyAD(q)) && |payload| == PayloadLen(q)
    requires b == var c := a.(count := a.count + 1); if PayloadLen(q) == 0 then EndOfTag(c, q) else c.(mode := InTag(q, 0))
    ensures ReadAll(b, payload) == EndOfTag(a.(count := a.count + 1 + |payload|), q)
  {
    hide PayloadLen, ReadAll, AnyAD, ReadOne, Eop, Flg;
    if payload != [] {
      ReadPayload(b, q, payload);
    } else {
      ReadNone(b);
    }
  }

  /** What reading a tag does. */
  lemma TagReads(a: Reader, q: Quad)
    requires a.mode == AtTag
    ensures ReadOne(a, q) == var b := a.(count := a.count + 1); if PayloadLen(q) == 0 then EndOfTag(b, q) else b.(mode := InTag(q, 0))
  {
    hide PayloadLen, EndOfTag, WritesAD, Flg;
  }

  lemma LoadReads(p: Path, gs: Handler, marks: seq<nat>, n: nat)
    requires p.Ok() && !p.tag.isValid && p.rest != []
    ensures TurnIsRead(p, gs, LoadTag(p, gs), marks, n)
  {
    hide ReadAll, Nibble, AnyAD, PayloadLen, NLoop, NReg, Eop, Position;
    var a := Seen(p, gs, marks, n);
    var q := p.rest[0];
    var t := SetTag(p.tag.regs, q);
    if t.hasAD {
      LoadADReads(a, p.tag.regs, q);
      ReadSingle(a, q);
      assert p.rest[..1] == [q];
    } else if 1 + t.len <= |p.rest| {
      assert p.rest[..1 + t.len] == [q] + p.rest[1..1 + t.len];
      DataTagReads(a, q, p.rest[1..1 + t.len]);
    } else {
      ReadNone(a);
    }
  }

  lemma LoadADReads(a: Reader, regs: seq<nat>, q: Quad)
    requires |regs| == 16 && SetTag(regs, q).hasAD && a.mode == AtTag
    ensures var t := SetTag(regs, q);
            ReadOne(a, q) == Reader(SeenMode(t), a.writes,
                                    if t.nLoop == 0 && Eop(q) then a.marks + [a.count + 1] else a.marks, a.count + 1)
  {
    hide Nibble, AnyAD, Eop, NLoop, NReg;
    var t := SetTag(regs, q);
    NRegRange(q);
    assert t.len == NReg(q) * NLoop(q);
    if NLoop(q) > 0 {
      MulAtLeast(NReg(q), NLoop(q));
      MulDistributes(t.nRegs, NLoop(q), t.nLoop);
    }
  }

  /** Position of the next quadword in a PACKED payload. */
  function Position(t: Tag): nat
    requires t.nLoop <= NLoop(t.hdr)
  {
    (NLoop(t.hdr) - t.nLoop) * t.nRegs + t.nRegIdx
  }

  lemma PositionRegister(p: Path)
    requires p.Ok() && p.tag.isValid && Position(p.tag) % p.tag.nRegs == p.tag.nRegIdx
    ensures WritesAD(p.tag.hdr, Position(p.tag)) <==> p.tag.CurReg() == AD_REGISTER
  {
    hide Nibble, Eop, NLoop, Position, NReg, Flg, Register;
  }

  lemma PositionSteps(t: Tag)
    requires t.isValid && 0 < t.nLoop <= NLoop(t.hdr) && t.nRegIdx < t.nRegs == NReg(t.hdr) && Flg(t.hdr) == Packed
    ensures var t1 := t.PackedStep();
            && Position(t) % t.nRegs == t.nRegIdx
            && (Position(t) + 1 >= PayloadLen(t.hdr) <==> t1.nLoop == 0)
            && t1.nLoop <= NLoop(t1.hdr) && (t1.nLoop > 0 ==> Position(t1) == Position(t) + 1)
  {
    hide Eop, NReg, Flg, NLoop;
    PackedPosition(NLoop(t.hdr), t.nLoop, t.nRegs, t.nRegIdx);
  }

  /** Stepping the counters of a PACKED tag is moving one position on in its payload. */
  lemma PackedStepMode(p: Path)
    requires p.Ok() && p.tag.isValid && p.tag.nLoop > 0
    ensures var t := p.tag; var m := SeenMode(t); var t1 := t.PackedStep();
            && m.InTag? && m.hdr == t.hdr
            && (WritesAD(m.hdr, m.pos) <==> t.CurReg() == AD_REGISTER)
            && (m.pos + 1 >= PayloadLen(m.hdr) <==> t1.nLoop == 0)
            && SeenMode(t1) == if t1.nLoop == 0 then AtTag else InTag(m.hdr, m.pos + 1)
  {
    hide Nibble, Register, Eop, NLoop, NReg, Flg, WritesAD, Position, PayloadLen;
    PositionSteps(p.tag);
    PositionRegister(p);
  }

  lemma PackedReads(p: Path, gs: Handler, marks: seq<nat>, n: nat)
    requires p.Ok() && p.tag.isValid && p.tag.nLoop > 0 && p.rest != []
    ensures TurnIsRead(p, gs, PackedTurn(p, gs), marks, n)
  {
    hide ReadAll, WritesAD, PayloadLen, SeenMode, NLoop, NReg, Flg, Register, Nibble, Eop, Position;
    PackedStepMode(p);
    assert p.rest[..1] == [p.rest[0]];
    ReadSingle(Seen(p, gs, marks, n), p.rest[0]);
  }

  /** One turn of the parser is the machine reading the quadwords it consumed. */
  lemma TurnReads(p: Path, gs: Handler, marks: seq<nat>, n: nat)
    requires p.Ok()
    ensures TurnIsRead(p, gs, TurnOf(p, gs), marks, n)
  {
    TurnCases(p, gs);
    hide TurnOf, TurnIsRead, LoadTag, PackedTurn, TagEnd;
    if p.rest == [] && !(p.tag.isValid && p.tag.nLoop == 0) {
      StopsDry(p, gs, marks, n);
    } else if !p.tag.isValid {
      LoadReads(p, gs, marks, n);
    } else if p.tag.nLoop > 0 {
      PackedReads(p, gs, marks, n);
    } else {
      TagEndReads(p, gs, marks, n);
    }
  }

  lemma TurnCases(p: Path, gs: Handler)
    requires |p.tag.regs| == 16
    ensures TurnOf(p, gs) == if !p.tag.isValid then LoadTag(p, gs) else if p.tag.nLoop > 0 then PackedTurn(p, gs) else TagEnd(p, gs)
  {}

  lemma TagEndSeen(p: Path, gs: Handler, marks: seq<nat>, n: nat)
    requires p.tag.isValid && p.tag.nLoop == 0
    ensures var t := TagEnd(p, gs);
            && t.path.rest == p.rest
            && Seen(p, gs, marks, n) == Seen(t.path, t.gs, if t.AtEop? then marks + [n] else marks, n)
  {
    hide NLoop, Eop, Position;
  }

  lemma TagEndReads(p: Path, gs: Handler, marks: seq<nat>, n: nat)
    requires p.tag.isValid && p.tag.nLoop == 0
    ensures TurnIsRead(p, gs, TagEnd(p, gs), marks, n)
  {
    hide NLoop, Eop, ReadAll, Seen;
    ReadNone(Seen(p, gs, marks, n));
    assert p.rest[..0] == [];
    TagEndSeen(p, gs, marks, n);
  }

  lemma StopsDry(p: Path, gs: Handler, marks: seq<nat>, n: nat)
    requires p.rest == []
    ensures PackedTurn(p, gs) == Stop(p, gs, false)
    ensures |p.tag.regs| == 16 ==> LoadTag(p, gs) == Stop(p, gs, false)
    ensures TurnIsRead(p, gs, Stop(p, gs, false), marks, n)
  {
    hide SeenMode, ReadAll;
    ReadNone(Seen(p, gs, marks, n));
  }

  /** From p to q, having read k quadwords, the machine goes to what q's parser has seen. */
  ghost predicate Leads(p: Path, gs: Handler, marks: seq<nat>, n: nat, q: Path, gs1: Handler, ended: bool) {
    var k := |p.rest| - |q.rest|;
    && 0 <= k <= |p.rest| && q.rest == p.rest[k..]
    && ReadAll(Seen(p, gs, marks, n), p.rest[..k]) == Seen(q, gs1, if ended then marks + [n + k] else marks, n + k)
  }

  lemma LeadsOn(p: Path, gs: Handler, marks: seq<nat>, n: nat, p1: Path, gs1: Handler, q: Path, gs2: Handler,
                ended: bool)
    requires Leads(p, gs, marks, n, p1, gs1, false)
    requires var j := |p.rest| - |p1.rest|; Leads(p1, gs1, marks, n + j, q, gs2, ended)
    ensures Leads(p, gs, marks, n, q, gs2, ended)
  {
    hide Seen, ReadAll;
    var j, k := |p.rest| - |p1.rest|, |p.rest| - |q.rest|;
    assert p.rest[..k] == p.rest[..j] + p.rest[j..][..k - j];
    assert p.rest[j..][k - j..] == p.rest[k..];
    ReadAppend(Seen(p, gs, marks, n), p.rest[..j], p.rest[j..][..k - j]);
  }

  lemma FinishedLeads(p: Path, gs: Handler, marks: seq<nat>, n: nat, q: Path, gs1: Handler, ctx: Ctx)
    requires Leads(p, gs, marks, n, q, gs1, true) && !ctx.masked && !q.tag.isValid
    ensures var r := Finished(q, gs1, ctx); r.done && Leads(p, gs, marks, n, r.path, r.gs, true)
  {
    hide ReadAll;
  }

  lemma TurnLeads(p: Path, gs: Handler, marks: seq<nat>, n: nat)
    requires p.Ok()
    ensures |p.tag.regs| == 16
    ensures var t := TurnOf(p, gs);
            && Leads(p, gs, marks, n, t.path, t.gs, t.AtEop?)
            && t.path.Ok() && |t.path.rest| <= |p.rest| && (t.AtEop? ==> !t.path.tag.isValid) && (t.Go? ==> Rank(t.path) < Rank(p))
  {
    hide TurnOf, Seen, ReadAll;
    TurnConserves(p, gs);
    TurnReads(p, gs, marks, n);
    TurnShrinks(p, gs);
    TurnKeepsOk(p, gs);
  }

  /** A whole call of the parser is the machine reading what it consumed. */
  lemma {:induction false} ExecReads(p: Path, gs: Handler, ctx: Ctx, marks: seq<nat>, n: nat)
    requires p.Ok() && !ctx.masked
    ensures var r := Exec(p, gs, ctx); Leads(p, gs, marks, n, r.path, r.gs, r.done)
    decreases Rank(p)
  {
    hide TurnOf, Leads, Exec, Finished, Path.Ok;
    TurnLeads(p, gs, marks, n);
    ExecIs(p, gs, ctx);
    var t := TurnOf(p, gs);
    if t.Go? {
      ExecReads(t.path, t.gs, ctx, marks, n + (|p.rest| - |t.path.rest|));
      var r := Exec(p, gs, ctx);
      LeadsOn(p, gs, marks, n, t.path, t.gs, r.path, r.gs, r.done);
    } else if t.AtEop? {
      FinishedLeads(p, gs, marks, n, t.path, t.gs, ctx);
    }
  }

  /** The invariant of every run: the machine fed with the parsed stream agrees with the parser. */
  ghost predicate Agrees(s: Run) {
    && RunOk(s)
    && ReadAll(INIT_READER, Parsed(s)) == Seen(s.path, s.gs, s.marks, |Parsed(s)|)
  }

  lemma CancelSuffix<T>(a: seq<T>, b: seq<T>, tail: seq<T>)
    requires a + tail == b + tail
    ensures a == b
  {
    assert |a + tail| == |b + tail|;
    assert a == (a + tail)[..|a|];
    assert b == (b + tail)[..|b|];
  }

  /** One call moves a prefix of the unparsed bytes into the parsed stream. */
  lemma OnceParses(s: Run, ctx: Ctx)
    requires RunOk(s) && !ctx.masked
    ensures var d := Once(s, ctx).run; var k := |s.path.rest| - |d.path.rest|;
            && 0 <= k <= |s.path.rest| && d.path.rest == s.path.rest[k..]
            && Parsed(d) == Parsed(s) + s.path.rest[..k]
  {
    hide Exec, Once, Path.Ok, Parsed;
    ParsedOnce(s, ctx);
    var r := Exec(s.path, s.gs, ctx);
    var k := ExecGrows(s.path, s.gs, ctx);
    Grown(s.sent, s.path.pack, s.path.rest, k, GrownBy(r), r.rewound);
  }

  /** The packet so far, delivered or not. */
  function GrownBy(r: Result): seq<Quad> { if r.done then r.packet else r.path.pack }

  lemma ParsedOnce(s: Run, ctx: Ctx)
    requires RunOk(s) && !ctx.masked
    ensures |s.path.tag.regs| == 16
    ensures Once(s, ctx).run.path == Exec(s.path, s.gs, ctx).path
    ensures Parsed(Once(s, ctx).run) == s.sent + GrownBy(Exec(s.path, s.gs, ctx)) && Parsed(s) == s.sent + s.path.pack
  {
    hide Exec, Once, Path.Ok;
    OnceFields(s, ctx);
    var r := Exec(s.path, s.gs, ctx);
    var k := ExecGrows(s.path, s.gs, ctx);
    if r.done { NothingMore(s.sent + r.packet, r.path.pack); }
  }

  lemma NothingMore(a: seq<Quad>, b: seq<Quad>)
    requires b == []
    ensures a + b == a
  {}

  lemma ExecGrows(p: Path, gs: Handler, ctx: Ctx) returns (k: nat)
    requires p.Ok() && !ctx.masked
    ensures var r := Exec(p, gs, ctx);
            && k <= |p.rest| && k == |p.rest| - |r.path.rest| && r.path.rest == p.rest[k..] && r.rewound == []
            && p.pack + p.rest == GrownBy(r) + p.rest[k..] + r.rewound && (r.done ==> r.path.pack == [])
  {
    hide Exec, ReadAll, Seen;
    var r := Exec(p, gs, ctx);
    RegsOf(p);
    ExecConserves(p, gs, ctx);
    ExecReads(p, gs, ctx, [], 0);
    hide *;
    k := |p.rest| - |r.path.rest|;
  }

  lemma RegsOf(p: Path)
    requires p.Ok()
    ensures |p.tag.regs| == 16
  {}

  /** What grew did so by what was parsed, if nothing was given back. */
  lemma Grown(sent: seq<Quad>, pack: seq<Quad>, rest: seq<Quad>, k: nat, grown: seq<Quad>, back: seq<Quad>)
    requires k <= |rest| && back == [] && pack + rest == grown + rest[k..] + back
    ensures sent + grown == sent + pack + rest[..k]
  {
    assert grown + rest[k..] + [] == grown + rest[k..];
    assert pack + rest == (pack + rest[..k]) + rest[k..];
    CancelSuffix(grown, pack + rest[..k], rest[k..]);
    assert sent + (pack + rest[..k]) == sent + pack + rest[..k];
  }

  lemma OnceFields(s: Run, ctx: Ctx)
    requires RunOk(s)
    ensures |s.path.tag.regs| == 16
    ensures var d := Once(s, ctx).run; var r := Exec(s.path, s.gs, ctx);
            && d.path == r.path && d.gs == r.gs
            && d.marks == (if r.done then s.marks + [|s.sent + r.packet|] else s.marks)
            && Parsed(d) == (if r.done then s.sent + r.packet + r.path.pack else s.sent + r.path.pack)
  {
    hide Exec;
  }

  lemma OnceAgrees(s: Run, ctx: Ctx)
    requires Agrees(s) && !ctx.masked
    ensures Agrees(Once(s, ctx).run)
    ensures var d := Once(s, ctx).run; Parsed(d) + d.path.rest == Parsed(s) + s.path.rest
  {
    hide Exec, ReadAll, SeenMode, Eop, NLoop, Once, Path.Ok;
    OnceParses(s, ctx);
    OnceFields(s, ctx);
    ExecConserves(s.path, s.gs, ctx);
    ExecReads(s.path, s.gs, ctx, s.marks, |Parsed(s)|);
    var d := Once(s, ctx).run;
    var k := |s.path.rest| - |d.path.rest|;
    ReadAppend(INIT_READER, Parsed(s), s.path.rest[..k]);
    assert Parsed(s) + s.path.rest[..k] + s.path.rest[k..] == Parsed(s) + s.path.rest;
  }

  lemma {:induction false} DrainAgrees(s: Run, ctx: Ctx)
    requires Agrees(s) && !ctx.masked
    ensures Agrees(Drain(s, ctx))
    ensures var d := Drain(s, ctx); Parsed(d) + d.path.rest == Parsed(s) + s.path.rest
    decreases |s.path.rest|
  {
    OnceAgrees(s, ctx);
    match Once(s, ctx)
    case Pause(_) =>
    case Halt(_) =>
    case Packet(s1) => if !s1.path.IsDone() { DrainAgrees(s1, ctx); }
  }

  lemma {:induction false} DrainStarves(s: Run, ctx: Ctx)
    requires RunOk(s) && !s.gs.queued
    ensures var d := Drain(s, ctx); d.gs.queued || Starved(d.path)
    decreases |s.path.rest|
  {
    hide Exec, SetTag, PayloadLen;
    ExecStarves(s.path, s.gs, ctx);
    ExecKeepsValid(s.path, s.gs, ctx);
    ExecConserves(s.path, s.gs, ctx);
    match Once(s, ctx)
    case Pause(_) =>
    case Halt(_) =>
    case Packet(s1) => if !s1.path.IsDone() { DrainStarves(s1, ctx); }
  }

  /** The machine finds no write and no packet end in the bytes a starved parser still holds. */
  lemma StarvedRest(p: Path, gs: Handler, marks: seq<nat>, n: nat)
    requires p.Valid() && Starved(p)
    ensures var a := ReadAll(Seen(p, gs, marks, n), p.rest); a.writes == gs.writes && a.marks == marks
  {
    hide PayloadLen, AnyAD, Nibble, NLoop, NReg, ReadAll;
    var a := Seen(p, gs, marks, n);
    ReadNone(a);
    if !p.tag.isValid && p.rest != [] {
      var q := p.rest[0];
      assert p.rest == [q] + p.rest[1..];
      ReadAppend(a, [q], p.rest[1..]);
      ReadSingle(a, q);
      ReadPayload(ReadOne(a, q), q, p.rest[1..]);
    }
  }

  lemma FeedAgrees(s: Run, chunk: seq<Quad>, ctx: Ctx)
    requires Agrees(s) && !ctx.masked
    ensures var d := Feed(s, chunk, ctx);
            && Agrees(d) && Parsed(d) + d.path.rest == Parsed(s) + s.path.rest + chunk
            && (d.gs.queued || Starved(d.path))
  {
    hide ReadAll, SeenMode, Drain, SetTag, PayloadLen;
    var s1 := WithMore(s, chunk);
    assert Parsed(s1) + s1.path.rest == Parsed(s) + s.path.rest + chunk;
    if !s.gs.queued {
      DrainAgrees(s1, ctx);
      DrainStarves(s1, ctx);
      var d := Drain(s1, ctx);
      assert Parsed(Flush(d)) == Parsed(d);
    }
  }

  lemma {:induction false} FeedAllAgrees(s: Run, chunks: seq<seq<Quad>>, ctx: Ctx)
    requires Agrees(s) && !ctx.masked
    ensures var d := FeedAll(s, chunks, ctx);
            && Agrees(d) && Parsed(d) + d.path.rest == Parsed(s) + s.path.rest + Concat(chunks)
            && (chunks != [] ==> d.gs.queued || Starved(d.path))
    decreases |chunks|
  {
    hide ReadAll, SeenMode, Feed, SetTag, PayloadLen, Seen;
    if chunks != [] {
      FeedAgrees(s, chunks[0], ctx);
      var s1 := Feed(s, chunks[0], ctx);
      FeedAllAgrees(s1, chunks[1..], ctx);
      assert Parsed(s) + s.path.rest + chunks[0] + Concat(chunks[1..])
             == Parsed(s) + s.path.rest + (chunks[0] + Concat(chunks[1..]));
    }
  }

  /** For every stream and every way of cutting it: no byte is lost, the A+D writes and the packet
      ends so far are exactly those the machine finds in the parsed bytes, and with no SIGNAL
      queued they are exactly those of the whole stream. */
  lemma ParserMeetsReader(chunks: seq<seq<Quad>>, ctx: Ctx)
    requires !ctx.masked && chunks != []
    ensures var s := FeedAll(INIT_RUN, chunks, ctx); var a := ReadAll(INIT_READER, Parsed(s));
            var w := ReadAll(INIT_READER, Concat(chunks));
            && Parsed(s) + s.path.rest == Concat(chunks)
            && a.writes == s.gs.writes && a.marks == s.marks
            && (!s.gs.queued ==> w.writes == s.gs.writes && w.marks == s.marks)
  {
    hide ReadAll, SeenMode, FeedAll, SetTag, PayloadLen, AnyAD;
    ReadNone(INIT_READER);
    assert INIT_PATH.Valid();
    assert SeenMode(RESET_TAG) == AtTag by { ResetMode(); }
    FeedAllAgrees(INIT_RUN, chunks, ctx);
    var s := FeedAll(INIT_RUN, chunks, ctx);
    assert [] + [] + Concat(chunks) == Concat(chunks);
    ReadAppend(INIT_READER, Parsed(s), s.path.rest);
    if !s.gs.queued { StarvedRest(s.path, s.gs, s.marks, |Parsed(s)|); }
  }

  lemma ResetMode()
    ensures SeenMode(RESET_TAG) == AtTag
  {}
}
