/** Where packets end: one call of the parser, masked or not, against the machine that reads one
    quadword at a time. */
module GifEnds {
  import opened GifTag
  import opened GifParser
  import opened GifChunking

  /** The path-3 mask only decides what happens to the bytes behind a completed packet. */
  lemma {:induction false} ExecMasked(p: Path, gs: Handler, ctx: Ctx)
    requires |p.tag.regs| == 16
    ensures var r := Exec(p, gs, ctx); var u := Exec(p, gs, ctx.(masked := false));
            && r.gs == u.gs && r.done == u.done && r.packet == u.packet && u.rewound == []
            && r.path.(rest := []) == u.path.(rest := []) && r.path.rest + r.rewound == u.path.rest
    decreases Rank(p)
  {
    TurnShrinks(p, gs);
    var t := TurnOf(p, gs);
    hide TurnOf;
    if t.Go? { ExecMasked(t.path, t.gs, ctx); }
  }

  function Silent(a: Reader): Reader { a.(writes := []) }

  lemma {:induction false} ReadSilent(a: Reader, b: Reader, qs: seq<Quad>)
    requires Silent(a) == Silent(b)
    ensures Silent(ReadAll(a, qs)) == Silent(ReadAll(b, qs))
    decreases |qs|
  {
    hide PayloadLen, Eop, WritesAD;
    if qs != [] { ReadSilent(a, b, qs[..|qs| - 1]); }
  }

  /** After the bytes s, the machine is where path p is, and has seen packets end at `marks`. */
  ghost predicate ReadsTo(p: Path, s: seq<Quad>, marks: seq<nat>) {
    Silent(ReadAll(INIT_READER, s)) == Reader(SeenMode(p.tag), [], marks, |s|)
  }

  lemma NothingRead()
    ensures ReadsTo(INIT_PATH, [], [])
  {}

  lemma SeenValid(p: Path, gs: Handler, marks: seq<nat>, n: nat)
    requires p.Valid()
    ensures Silent(Seen(p, gs, marks, n)) == Reader(SeenMode(p.tag), [], marks, n)
  {
    hide SeenMode;
  }

  /** What a call of the parser moves from the unparsed bytes to the packet. */
  lemma ExecTakes(p: Path, gs: Handler, ctx: Ctx)
    requires p.Valid() && !ctx.masked
    ensures var r := Exec(p, gs, ctx); var k := |p.rest| - |r.path.rest|;
            0 <= k <= |p.rest| && (if r.done then r.packet else r.path.pack) == p.pack + p.rest[..k]
  {
    hide Exec;
    ExecKeepsValid(p, gs, ctx);
    ExecConserves(p, gs, ctx);
    ExecReads(p, gs, ctx, [], 0);
    var r := Exec(p, gs, ctx);
    var k := |p.rest| - |r.path.rest|;
    var grown := if r.done then r.packet else r.path.pack;
    assert r.rewound == [];
    assert grown + r.path.rest + r.rewound == grown + r.path.rest;
    assert p.pack + p.rest == (p.pack + p.rest[..k]) + r.path.rest;
    CancelSuffix(grown, p.pack + p.rest[..k], r.path.rest);
  }

  lemma ReadOn(s: seq<Quad>, tail: seq<Quad>, a: Reader, b: Reader)
    requires Silent(ReadAll(INIT_READER, s)) == Silent(a) && ReadAll(a, tail) == b
    ensures Silent(ReadAll(INIT_READER, s + tail)) == Silent(b)
  {
    hide ReadAll;
    ReadSilent(ReadAll(INIT_READER, s), a, tail);
    ReadAppend(INIT_READER, s, tail);
  }

  lemma ExecReadsPlain(p: Path, gs: Handler, ctx: Ctx, s: seq<Quad>, marks: seq<nat>)
    requires p.Valid() && ReadsTo(p, s + p.pack, marks) && !ctx.masked
    ensures |p.tag.regs| == 16
    ensures var r := Exec(p, gs, ctx);
            if r.done then ReadsTo(r.path, s + r.packet, marks + [|s + r.packet|])
            else ReadsTo(r.path, s + r.path.pack, marks)
  {
    hide Exec, ReadAll, SeenMode, Seen, Silent;
    ExecKeepsValid(p, gs, ctx);
    ExecTakes(p, gs, ctx);
    var r := Exec(p, gs, ctx);
    var k := |p.rest| - |r.path.rest|;
    var n := |s + p.pack|;
    var later := if r.done then marks + [n + k] else marks;
    ExecReads(p, gs, ctx, marks, n);
    SeenValid(p, gs, marks, n);
    SeenValid(r.path, r.gs, later, n + k);
    ReadOn(s + p.pack, p.rest[..k], Seen(p, gs, marks, n), Seen(r.path, r.gs, later, n + k));
    assert s + p.pack + p.rest[..k] == s + (p.pack + p.rest[..k]);
  }

  /** One call of the parser finds a packet end exactly where the machine does. */
  lemma ExecReadsTo(p: Path, gs: Handler, ctx: Ctx, s: seq<Quad>, marks: seq<nat>)
    requires p.Valid() && ReadsTo(p, s + p.pack, marks)
    ensures |p.tag.regs| == 16
    ensures var r := Exec(p, gs, ctx);
            if r.done then ReadsTo(r.path, s + r.packet, marks + [|s + r.packet|])
            else ReadsTo(r.path, s + r.path.pack, marks)
  {
    hide Exec, ReadAll, SeenMode;
    ExecMasked(p, gs, ctx);
    ExecReadsPlain(p, gs, ctx.(masked := false), s, marks);
  }
}
