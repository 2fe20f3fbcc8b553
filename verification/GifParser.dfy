/** The incremental parser of one GIF path (`Gif_Path::ExecuteGSPacket`) as a function of the
    bytes not yet parsed, and its agreement with a machine that reads one quadword at a time. */
module GifParser {
  import opened GifTag

  /** What `Gif_HandlerAD` keeps: CSR.SIGNAL, the queued SIGNAL, CSR.FINISH and every A+D write
      in order (all other registers are functions of that order). */
  datatype Handler = Handler(signal: bool, queued: bool, finish: bool, writes: seq<Quad>)

  datatype Handled = Handled(gs: Handler, stall: bool)

  function HandleAD(gs: Handler, q: Quad): Handled {
    var reg := q.w2 % 256;
    var gs1 := gs.(writes := gs.writes + [q]);
    if reg == 0x60 then
      if gs.signal then
        if !gs.queued then Handled(gs1.(queued := true), true) else Handled(gs1, false)
      else Handled(gs1.(signal := true), false)
    else if reg == 0x61 then Handled(gs1.(finish := true), false)
    else Handled(gs1, false)
  }

  datatype PathState = Idle | OnPacked | OnReglist | OnImage | Wait

  function StateOf(q: Quad): PathState {
    match Flg(q)
    case Packed => OnPacked
    case Reglist => OnReglist
    case Image => OnImage
  }

  /** One path: `pack` is the packet being built, `rest` the bytes not parsed yet. */
  datatype Path = Path(tag: Tag, state: PathState, pack: seq<Quad>, cycles: nat, rest: seq<Quad>) {
    /** What holds at every point of the parser: a tag stays loaded only while it has A+D data. */
    ghost predicate Ok() {
      && |tag.regs| == 16
      && (tag.isValid ==>
            && tag.hasAD && state == OnPacked && Flg(tag.hdr) == Packed
            && tag.nRegs == NReg(tag.hdr) <= 16
            && (forall i :: 0 <= i < tag.nRegs ==> tag.regs[i] == Register(tag.hdr, i))
            && tag.nRegIdx < tag.nRegs && tag.nLoop <= NLoop(tag.hdr)
            && (tag.nLoop == 0 ==> tag.nRegIdx == 0))
    }

    /** What holds between calls: an exhausted tag never carries an EOP. */
    ghost predicate Valid() {
      Ok() && (tag.isValid && tag.nLoop == 0 ==> !Eop(tag.hdr))
    }

    predicate AtRest() { state == Idle || state == Wait }

    predicate IsDone() { rest == [] && AtRest() }
  }

  const INIT_PATH := Path(RESET_TAG, Idle, [], 0, [])

  /** The registers the parser reads: whether APATH is 3, and whether path 3 is masked (M3R or M3P). */
  datatype Ctx = Ctx(onPath3: bool, masked: bool)

  /** The outcome of one call: `packet` if an EOP was reached, `rewound` what path 3 gave back. */
  datatype Result = Result(path: Path, gs: Handler, done: bool, stalled: bool,
                           packet: seq<Quad>, rewound: seq<Quad>)

  function NotDone(p: Path, gs: Handler): Result { Result(p, gs, false, false, [], []) }

  /** The end of a packet. */
  function Finished(p: Path, gs: Handler, ctx: Ctx): Result {
    var p1 := p.(pack := [], cycles := 0, tag := p.tag.(isValid := false));
    if ctx.onPath3 then
      if p.rest != [] && ctx.masked then
        Result(p1.(state := Wait, rest := []), gs, true, false, p.pack, p.rest)
      else Result(p1.(state := Wait), gs, true, false, p.pack, [])
    else Result(p1.(state := Idle), gs, true, false, p.pack, [])
  }

  function Consume(p: Path, n: nat): Path
    requires n <= |p.rest|
  {
    p.(pack := p.pack + p.rest[..n], rest := p.rest[n..])
  }

  /** One turn of the parser: stop for lack of data or on a stalling SIGNAL, reach an EOP, or go on. */
  datatype Turn =
    | Stop(path: Path, gs: Handler, stalled: bool)
    | AtEop(path: Path, gs: Handler)
    | Go(path: Path, gs: Handler)

  /** All quadwords of a tag were consumed. */
  function TagEnd(p: Path, gs: Handler): Turn {
    var p1 := p.(tag := p.tag.(isValid := false));
    if Eop(p.tag.hdr) then AtEop(p1, gs) else Go(p1, gs)
  }

  /** A new tag is loaded once its data is complete, or at once if it writes registers. */
  function LoadTag(p: Path, gs: Handler): Turn
    requires |p.tag.regs| == 16
  {
    if p.rest == [] then Stop(p, gs, false)
    else
      var t := SetTag(p.tag.regs, p.rest[0]);
      var p1 := p.(tag := t, state := StateOf(p.rest[0]));
      if !t.hasAD && 1 + t.len > |p.rest| then Stop(p1.(tag := t.(isValid := false)), gs, false)
      else
        var p2 := p1.(cycles := p.cycles + 2 + t.cycles);
        if t.hasAD then Go(Consume(p2, 1), gs) else TagEnd(Consume(p2, 1 + t.len), gs)
  }

  /** One quadword of a tag that writes registers. */
  function PackedTurn(p: Path, gs: Handler): Turn {
    if p.rest == [] then Stop(p, gs, false)
    else
      var h := if p.tag.CurReg() == AD_REGISTER then HandleAD(gs, p.rest[0]) else Handled(gs, false);
      var p1 := Consume(p, 1).(tag := p.tag.PackedStep());
      if h.stall && !(Eop(p.tag.hdr) && p1.tag.nLoop == 0) then Stop(p1, h.gs, true)
      else Go(p1, h.gs)
  }

  function TurnOf(p: Path, gs: Handler): Turn
    requires |p.tag.regs| == 16
  {
    if !p.tag.isValid then LoadTag(p, gs)
    else if p.tag.nLoop > 0 then PackedTurn(p, gs)
    else TagEnd(p, gs)
  }

  function Rank(p: Path): nat { 2 * |p.rest| + if p.tag.isValid then 1 else 0 }

  lemma TurnShrinks(p: Path, gs: Handler)
    requires |p.tag.regs| == 16
    ensures var t := TurnOf(p, gs); |t.path.tag.regs| == 16 && (t.Go? ==> Rank(t.path) < Rank(p))
  {}

  /** `ExecuteGSPacket`: parse until data runs out, an EOP completes a packet, or SIGNAL stalls. */
  function Exec(p: Path, gs: Handler, ctx: Ctx): Result
    requires |p.tag.regs| == 16
    decreases Rank(p)
  {
    TurnShrinks(p, gs);
    match TurnOf(p, gs)
    case Stop(p1, gs1, stalled) => Result(p1, gs1, false, stalled, [], [])
    case AtEop(p1, gs1) => Finished(p1, gs1, ctx)
    case Go(p1, gs1) => Exec(p1, gs1, ctx)
  }

  /** One turn of the parser, then the rest of the call. */
  lemma ExecIs(p: Path, gs: Handler, ctx: Ctx)
    requires |p.tag.regs| == 16
    ensures var t := TurnOf(p, gs);
            && |t.path.tag.regs| == 16
            && Exec(p, gs, ctx) == if t.Stop? then Result(t.path, t.gs, false, t.stalled, [], [])
                                   else if t.AtEop? then Finished(t.path, t.gs, ctx)
                                   else Exec(t.path, t.gs, ctx)
  {
    TurnShrinks(p, gs);
    hide TurnOf, Finished;
  }

  // ---- what every call keeps ----

  lemma ConsumeSplit(p: Path, n: nat)
    requires n <= |p.rest|
    ensures (p.pack + p.rest[..n]) + p.rest[n..] == p.pack + p.rest
  {}

  lemma TurnConserves(p: Path, gs: Handler)
    requires |p.tag.regs| == 16
    ensures var t := TurnOf(p, gs); t.path.pack + t.path.rest == p.pack + p.rest
    ensures TurnOf(p, gs).AtEop? ==> !TurnOf(p, gs).path.tag.isValid
  {
    hide AnyAD, Nibble, NReg, NLoop, PayloadLen, Eop, Flg, Registers, StateOf, HandleAD;
    if p.rest != [] {
      var n := 1 + SetTag(p.tag.regs, p.rest[0]).len;
      if n <= |p.rest| { ConsumeSplit(p, n); }
      ConsumeSplit(p, 1);
    }
  }

  /** Nothing is lost or reordered: what was pending is handed over, kept, or given back, and
      only an EOP under a path-3 mask gives anything back. */
  lemma {:induction false} ExecConserves(p: Path, gs: Handler, ctx: Ctx)
    requires |p.tag.regs| == 16
    ensures var r := Exec(p, gs, ctx);
            && p.pack + p.rest == (if r.done then r.packet else r.path.pack) + r.path.rest + r.rewound
            && (r.done ==> r.path.pack == [] && !r.path.tag.isValid && r.path.cycles == 0)
            && (r.rewound != [] ==> r.done && ctx.onPath3 && ctx.masked && r.path.rest == [] && r.path.state == Wait)
    decreases Rank(p)
  {
    TurnConserves(p, gs);
    TurnShrinks(p, gs);
    hide TurnOf;
    match TurnOf(p, gs)
    case Stop(_, _, _) =>
    case AtEop(_, _) =>
    case Go(p1, gs1) => ExecConserves(p1, gs1, ctx);
  }

  lemma TurnKeepsOk(p: Path, gs: Handler)
    requires p.Ok()
    ensures var t := TurnOf(p, gs);
            && t.path.Ok() && |t.path.rest| <= |p.rest|
            && (gs.queued ==> t.gs.queued)
            && (t.Go? && !gs.queued && t.gs.queued ==> t.path.tag.isValid && t.path.tag.nLoop == 0 && Eop(t.path.tag.hdr))
            && (t.Stop? && !t.stalled ==> t.gs == gs)
            && (t.Stop? ==> t.path.Valid())
            && (t.Stop? && t.stalled ==> t.gs.queued && !gs.queued)
            && (t.Stop? && !t.stalled && t.path.tag.isValid ==> t.path.rest == [] && t.path.tag.nLoop > 0)
            && (t.AtEop? && p.Valid() ==> |t.path.rest| < |p.rest|)
            && (t.Go? ==> t.path.Valid() || |t.path.rest| < |p.rest|)
  {
    hide AnyAD, Nibble, PayloadLen;
    if !p.tag.isValid && p.rest != [] { NRegRange(p.rest[0]); }
  }

  /** Between calls the invariant holds again, a completed packet ate data, and a call that
      stops short has used up the data or was stopped by SIGNAL. */
  lemma {:induction false} ExecKeepsValid(p: Path, gs: Handler, ctx: Ctx)
    requires p.Ok()
    ensures var r := Exec(p, gs, ctx);
            && r.path.Valid() && |r.path.rest| + |r.rewound| <= |p.rest|
            && (r.done ==> r.path.AtRest() && (p.Valid() ==> |r.path.rest| + |r.rewound| < |p.rest|))
            && (r.done && !ctx.onPath3 ==> r.path.state == Idle)
            && (r.stalled ==> r.gs.queued && !gs.queued && !r.done)
            && (gs.queued ==> r.gs.queued)
            && (!r.done && !r.stalled && !gs.queued ==> !r.gs.queued)
            && (!r.done && !r.stalled && r.path.tag.isValid ==> r.path.rest == [] && r.path.tag.nLoop > 0)
    decreases Rank(p)
  {
    TurnKeepsOk(p, gs);
    TurnShrinks(p, gs);
    hide TurnOf;
    match TurnOf(p, gs)
    case Stop(_, _, _) =>
    case AtEop(_, _) =>
    case Go(p1, gs1) => ExecKeepsValid(p1, gs1, ctx);
  }

  // ---- data that arrives later ----

  function More(p: Path, more: seq<Quad>): Path { p.(rest := p.rest + more) }

  lemma ConsumeMore(p: Path, n: nat, more: seq<Quad>)
    requires n <= |p.rest|
    ensures Consume(More(p, more), n) == More(Consume(p, n), more)
  {
    assert (p.rest + more)[..n] == p.rest[..n];
    assert (p.rest + more)[n..] == p.rest[n..] + more;
  }

  /** Decoding the same tag twice is decoding it once. */
  lemma SetTagAgain(regs: seq<nat>, q: Quad)
    requires |regs| == 16
    ensures SetTag(SetTag(regs, q).regs, q) == SetTag(regs, q)
  {
    assert Registers(Registers(regs, q), q) == Registers(regs, q);
  }

  lemma LoadMore(p: Path, gs: Handler, more: seq<Quad>)
    requires |p.tag.regs| == 16 && p.rest != []
    ensures var t := LoadTag(p, gs); var u := LoadTag(More(p, more), gs);
            if t.Stop? then !t.stalled && t.gs == gs && |t.path.tag.regs| == 16 && !t.path.tag.isValid && u == LoadTag(More(t.path, more), gs)
            else u == t.(path := More(t.path, more))
  {
    hide AnyAD, Nibble, NLoop, NReg, Eop, PayloadLen, StateOf, Flg, Registers, SetTag, Consume;
    assert (p.rest + more)[0] == p.rest[0];
    SetTagAgain(p.tag.regs, p.rest[0]);
    var t := SetTag(p.tag.regs, p.rest[0]);
    var p2 := p.(tag := t, state := StateOf(p.rest[0]), cycles := p.cycles + 2 + t.cycles);
    ConsumeMore(p2, 1, more);
    if 1 + t.len <= |p.rest| { ConsumeMore(p2, 1 + t.len, more); }
  }

  /** A turn that did not stop for lack of data is the same with more data behind; one that did
      can be repeated later. */
  lemma TurnMore(p: Path, gs: Handler, more: seq<Quad>)
    requires |p.tag.regs| == 16
    ensures var t := TurnOf(p, gs); var u := TurnOf(More(p, more), gs);
            if t.Stop? && !t.stalled then t.gs == gs && u == TurnOf(More(t.path, more), gs)
            else u == t.(path := More(t.path, more))
  {
    hide LoadTag, Eop, HandleAD;
    if p.rest == [] && (p.tag.isValid ==> p.tag.nLoop > 0) {
      LoadDry(p, gs);
    } else if !p.tag.isValid {
      LoadMore(p, gs, more);
    } else if p.tag.nLoop > 0 {
      assert (p.rest + more)[0] == p.rest[0];
      ConsumeMore(p, 1, more);
    }
  }

  lemma LoadDry(p: Path, gs: Handler)
    requires |p.tag.regs| == 16 && p.rest == []
    ensures LoadTag(p, gs) == Stop(p, gs, false)
  {}

  /** A completed or stalled call returns the same whatever follows, and a call that ran dry is a pause. */
  lemma {:induction false} ExecMore(p: Path, gs: Handler, ctx: Ctx, more: seq<Quad>)
    requires |p.tag.regs| == 16 && !ctx.masked
    ensures |Exec(p, gs, ctx).path.tag.regs| == 16
    ensures var r := Exec(p, gs, ctx);
            Exec(More(p, more), gs, ctx) ==
            if r.done || r.stalled then r.(path := More(r.path, more)) else Exec(More(r.path, more), r.gs, ctx)
    decreases Rank(p)
  {
    TurnMore(p, gs, more);
    TurnShrinks(p, gs);
    hide TurnOf;
    match TurnOf(p, gs)
    case Stop(p1, gs1, stalled) =>
    case AtEop(p1, gs1) =>
    case Go(p1, gs1) => ExecMore(p1, gs1, ctx, more);
  }

  function Prefixed(a: seq<Quad>, p: Path): Path { p.(pack := a + p.pack) }

  lemma ConsumePrefix(p: Path, n: nat, a: seq<Quad>)
    requires n <= |p.rest|
    ensures Consume(Prefixed(a, p), n) == Prefixed(a, Consume(p, n))
  {
    assert a + p.pack + p.rest[..n] == a + (p.pack + p.rest[..n]);
  }

  lemma TurnPrefix(p: Path, gs: Handler, a: seq<Quad>)
    requires |p.tag.regs| == 16
    ensures var t := TurnOf(p, gs); TurnOf(Prefixed(a, p), gs) == t.(path := Prefixed(a, t.path))
  {
    hide AnyAD, Nibble, NReg, NLoop, PayloadLen, Eop, Flg, Registers, StateOf, HandleAD, Tag.PackedStep, Tag.CurReg;
    if p.rest != [] {
      var t := SetTag(p.tag.regs, p.rest[0]);
      var p2 := p.(tag := t, state := StateOf(p.rest[0]), cycles := p.cycles + 2 + t.cycles);
      ConsumePrefix(p2, 1, a);
      ConsumePrefix(p, 1, a);
      if 1 + t.len <= |p.rest| { ConsumePrefix(p2, 1 + t.len, a); }
    }
  }

  /** Bytes already in the packet never influence the parser. */
  lemma {:induction false} ExecPrefix(p: Path, gs: Handler, ctx: Ctx, a: seq<Quad>)
    requires |p.tag.regs| == 16
    ensures var r := Exec(p, gs, ctx);
            Exec(Prefixed(a, p), gs, ctx) ==
            if r.done then r.(packet := a + r.packet) else r.(path := Prefixed(a, r.path))
    decreases Rank(p)
  {
    TurnPrefix(p, gs, a);
    TurnShrinks(p, gs);
    hide TurnOf;
    match TurnOf(p, gs)
    case Stop(_, _, _) =>
    case AtEop(_, _) =>
    case Go(p1, gs1) => ExecPrefix(p1, gs1, ctx, a);
  }

  /** No turn is possible without more data. */
  ghost predicate Starved(p: Path)
    requires |p.tag.regs| == 16
  {
    if p.tag.isValid then p.rest == []
    else p.rest == [] || (!SetTag(p.tag.regs, p.rest[0]).hasAD && 1 + PayloadLen(p.rest[0]) > |p.rest|)
  }

  lemma {:induction false} ExecStarves(p: Path, gs: Handler, ctx: Ctx)
    requires p.Ok()
    ensures var r := Exec(p, gs, ctx);
            |r.path.tag.regs| == 16 && (!r.done && !r.stalled ==> Starved(r.path))
    decreases Rank(p)
  {
    TurnShrinks(p, gs);
    TurnKeepsOk(p, gs);
    hide TurnOf;
    match TurnOf(p, gs)
    case Stop(p1, _, _) =>
      if !p.tag.isValid && p.rest != [] {
        SetTagAgain(p.tag.regs, p.rest[0]);
      }
    case AtEop(_, _) =>
    case Go(p1, gs1) => ExecStarves(p1, gs1, ctx);
  }
}
