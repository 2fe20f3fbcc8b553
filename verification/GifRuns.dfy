/** Two runs from the reset state in which path 3, masked in the middle of a packet, gives back bytes
    that it took before: a DMA transfer then keeps a negative number of quadwords, and the
    acknowledgement of a SIGNAL loses bytes. */
module GifRuns {
  import opened GifTag
  import opened GifParser
  import opened GifUnit

  /** A tag with EOP for three quadwords of A+D data. */
  const TAG := Quad(0x8003, 0x1000_0000, 0xE, 0)
  const SIGNAL := Quad(0, 0, 0x60, 0)
  const FINISH := Quad(0, 0, 0x61, 0)

  /** The second SIGNAL stalls the path; the FINISH completes the packet; one quadword follows. */
  const CHUNK := [TAG, SIGNAL, SIGNAL, FINISH, ZERO_QUAD]

  /** One quadword of A+D data is missing to an EOP. */
  ghost predicate OneLeft(p: Path) {
    && p.tag.isValid && p.tag.nLoop == 1 && p.tag.nRegs == 1 && p.tag.nRegIdx == 0
    && |p.tag.regs| == 16 && p.tag.regs[0] == AD_REGISTER && Eop(p.tag.hdr)
  }

  /** A FINISH completes the packet, and what follows it is behind the packet. */
  lemma FinishCompletes(p: Path, gs: Handler, tail: seq<Quad>)
    requires OneLeft(p) && p.rest == [FINISH] + tail
    ensures Behind(p, gs) == |tail|
  {
    var ctx := Ctx(true, false);
    ExecIs(p, gs, ctx);
    var t := TurnOf(p, gs);
    assert p.rest[1..] == tail;
    ExecIs(t.path, t.gs, ctx);
  }

  /** The tag is read, and one SIGNAL after it; the next one stalls. */
  lemma ChunkStalls(p: Path, gs: Handler)
    requires p == More(INIT_PATH, CHUNK) && !gs.signal && !gs.queued
    ensures var r := Exec(p, gs, Ctx(true, false));
            && !r.done && r.gs.signal && r.gs.queued
            && OneLeft(r.path) && r.path.state == OnPacked && r.path.rest == [FINISH] + [ZERO_QUAD]
  {
    var ctx := Ctx(true, false);
    TagLoads(p, gs);
    ExecIs(p, gs, ctx);
    var t := TurnOf(p, gs);
    SignalTurns(t.path, gs);
    ExecIs(t.path, gs, ctx);
    var u := TurnOf(t.path, gs);
    ExecIs(u.path, u.gs, ctx);
  }

  lemma TagLoads(p: Path, gs: Handler)
    requires p == More(INIT_PATH, CHUNK)
    ensures var t := TurnOf(p, gs);
            && t.Go? && t.gs == gs && t.path.rest == [SIGNAL, SIGNAL, FINISH, ZERO_QUAD]
            && OneLeft(t.path.(tag := t.path.tag.(nLoop := 1))) && t.path.tag.nLoop == 3 && t.path.state == OnPacked
  {
    assert p.rest == CHUNK && p.rest[1..] == [SIGNAL, SIGNAL, FINISH, ZERO_QUAD];
    assert Register(TAG, 0) == AD_REGISTER;
  }

  lemma SignalTurns(p: Path, gs: Handler)
    requires p.rest == [SIGNAL, SIGNAL, FINISH, ZERO_QUAD] && !gs.signal && !gs.queued
    requires OneLeft(p.(tag := p.tag.(nLoop := 1))) && p.tag.nLoop == 3
    ensures var t := TurnOf(p, gs); var u := TurnOf(t.path, t.gs);
            && t.Go? && |t.path.tag.regs| == 16 && u.Stop? && OneLeft(u.path) && u.gs.signal && u.gs.queued
            && u.path.state == p.state && u.path.rest == [FINISH] + [ZERO_QUAD]
  {
    assert p.rest[1..] == [SIGNAL, FINISH, ZERO_QUAD];
    assert p.rest[1..][1..] == [FINISH] + [ZERO_QUAD];
  }

  /** Only path 3 has something to do: it stands before the FINISH that completes its packet. */
  ghost predicate BeforeFinish(s: State) {
    && |s.paths| == 3 && s.paths[0] == s.paths[1] == INIT_PATH && s.fake == 0
    && OneLeft(s.paths[2]) && s.paths[2].state == OnPacked && s.paths[2].rest == [FINISH] + [ZERO_QUAD]
  }

  /** The chunk makes path 3 active and stalls it. */
  lemma ChunkExecuted(mtvu: bool)
    requires Brought(INIT_STATE, 2, CHUNK).Fine()
    ensures var s := ExecuteOn(Brought(INIT_STATE, 2, CHUNK), mtvu, false);
            && s.stat == INIT_STAT.(apath := 3, oph := true) && s.gs.signal && s.gs.queued && s.back == 0
            && BeforeFinish(s)
  {
    hide Exec, PathFine, Starved, OneLeft;
    var s := Brought(INIT_STATE, 2, CHUNK);
    var s1 := s.(back := 0, stat := s.stat.(oph := true));
    ChosenRound(s1, mtvu, false);
    RoundFine(s1, mtvu, false, 0, false);
    var s2 := s1.(stat := Switched(s1.stat, 3, true));
    ChunkStalls(s2.paths[2], s2.gs);
    var t := RoundOn(s2, mtvu, false, 2, false);
    RoundFine(s2, mtvu, false, 2, false);
    assert s1.Fine();
    assert Rounds(s1, mtvu, false, 0, false) == Rounds(s2, mtvu, false, 2, false);
    assert !t.more && t == Rounds(s2, mtvu, false, 2, false);
    assert t.s.stat.apath == 3 && t.cur == 2;
    assert FlushOn(t.s, 2) == t.s;
    assert ExecuteOn(s, mtvu, false) == t.s;
  }

  /** A fresh unit takes the chunk for path 3, whose second SIGNAL stalls it. */
  method Stalled(mtvu: bool) returns (unit: GifUnit)
    ensures unit.Valid() && fresh(unit) && unit.mtvu == mtvu && unit.stat == INIT_STAT.(apath := 3, oph := true)
    ensures unit.gs.signal && unit.gs.queued && BeforeFinish(unit.Now()) && unit.given[2] == CHUNK
  {
    hide Books, Executes, ExecuteOn, Brought, OneLeft, Handover, PathFine, Holds, Unbroken, Fakes, Starved, GivenBack,
         Wraps, GifUnit.Settled, GifUnit.Served, GifUnit.Tight, GifUnit.Ready, BeforeFinish;
    unit := new GifUnit(mtvu);
    BringChunk(unit);
  }

  method BringChunk(unit: GifUnit)
    requires unit.Valid() && unit.given == [[], [], []] && unit.Now() == INIT_STATE
    modifies unit
    ensures unit.Valid() && unit.stat == INIT_STAT.(apath := 3, oph := true)
    ensures unit.gs.signal && unit.gs.queued && BeforeFinish(unit.Now()) && unit.given[2] == CHUNK
  {
    hide Books, Executes, ExecuteOn, Brought, OneLeft, Handover, PathFine, Holds, Unbroken, Fakes, Starved, GivenBack,
         Wraps, GifUnit.Settled, GifUnit.Served, GifUnit.Tight, GifUnit.Ready, GifUnit.Accepts, GifUnit.Queued,
         GifUnit.Transferred, BeforeFinish, Returned;
    StartsFree(unit.mtvu);
    unit.AcceptsDma(DmaTransfer, CHUNK);
    ghost var had := unit.given[2 := unit.given[2] + CHUNK];
    assert had[2] == CHUNK;
    var n := unit.TransferGSPacketData(DmaTransfer, CHUNK);
    FirstState(unit.mtvu, unit.Now());
    NothingReturned(had, unit.given);
  }

  lemma StartsFree(mtvu: bool)
    ensures Brought(INIT_STATE, 2, CHUNK).Fine()
  {}

  lemma FirstState(mtvu: bool, s: State)
    requires Executes(Brought(INIT_STATE, 2, CHUNK), s, mtvu, false)
    ensures s.stat == INIT_STAT.(apath := 3, oph := true) && s.gs.signal && s.gs.queued && s.back == 0 && BeforeFinish(s)
    ensures GivenBack(Brought(INIT_STATE, 2, CHUNK), mtvu, false) == 0
  {
    hide ExecuteOn, PathFine, OneLeft, BeforeFinish, GivenBack;
    ChunkExecuted(mtvu);
  }

  lemma PausedStays(s: State, after: State, mtvu: bool)
    requires Executes(s, after, mtvu, true) && !s.CanDoGif()
    ensures after == s
  {}

  lemma TwoComeBack(s: State, mtvu: bool)
    requires Brought(s, 2, [ZERO_QUAD]).Fine() && s.stat.apath == 3 && s.CanDoGif() && s.Masked() && BeforeFinish(s)
    ensures GivenBack(Brought(s, 2, [ZERO_QUAD]), mtvu, false) == 2
  {
    hide Behind, GivenBack, PathFine, OneLeft;
    var p := More(s.paths[2], [ZERO_QUAD]);
    assert p.rest == [FINISH] + [ZERO_QUAD, ZERO_QUAD];
    assert OneLeft(p) by { OneLeftMore(s.paths[2], [ZERO_QUAD]); }
    FinishCompletes(p, s.gs, [ZERO_QUAD, ZERO_QUAD]);
    GivenBackFirst(Brought(s, 2, [ZERO_QUAD]), mtvu, false);
  }

  lemma OneLeftMore(p: Path, more: seq<Quad>)
    requires OneLeft(p)
    ensures OneLeft(More(p, more))
  {}

  /** The unit is paused, the SIGNAL is acknowledged, and the unit goes on with path 3 masked: the next
      transfer, of one quadword, gives back two, and the subtraction in `TransferGSPacketData` wraps. */
  method SubtractionWraps(mtvu: bool) returns (n: int)
    ensures n == -1
  {
    hide Books, Executes, ExecuteOn, Brought, Handover, PathFine, Holds, Returned, GivenBack, Wraps, BeforeFinish,
         GifUnit.Settled, GifUnit.Served, GifUnit.Ready;
    var unit := Stalled(mtvu);
    ghost var stalled := unit.Now();
    unit.WriteControls(false, true, false, false, false);
    ghost var s := unit.Now();
    unit.AcknowledgeSignal();
    PausedStays(s.(gs := Acknowledged(s.gs)), unit.Now(), mtvu);
    unit.WriteControls(false, false, false, true, false);
    ghost var r := unit.Now();
    StillBefore(stalled, r);
    unit.ValidFine();
    BroughtFine(r, 2, [ZERO_QUAD]);
    n := unit.TransferGSPacketData(DmaTransfer, [ZERO_QUAD]);
    TwoComeBack(r, mtvu);
  }

  /** Where path 3 stands does not depend on the rest of the unit. */
  lemma StillBefore(s: State, r: State)
    requires s.paths == r.paths && s.fake == r.fake
    ensures BeforeFinish(s) == BeforeFinish(r)
  {}

  lemma OneComesBack(s: State, mtvu: bool)
    requires s.Fine() && (s.stat.apath == 3 || s.stat.apath == 0) && s.CanDoGif() && s.Masked() && BeforeFinish(s)
    ensures GivenBack(s, mtvu, true) == 1
  {
    hide Behind, GivenBack, PathFine, OneLeft;
    FinishCompletes(s.paths[2], s.gs, [ZERO_QUAD]);
    GivenBackFirst(s, mtvu, true);
  }

  /** With path 3 masked, the acknowledgement of the SIGNAL takes the last quadword of the chunk from it, though
      the transfer that brought the chunk was told that all of it was kept.  It makes no difference whether a
      GIF interrupt came before, which takes APATH from path 3. */
  method AcknowledgementLoses(mtvu: bool, interrupt: bool) returns (unit: GifUnit)
    ensures unit.Valid() && unit.given[2] == CHUNK[..4]
  {
    hide Books, Executes, ExecuteOn, Handover, PathFine, Holds, GivenBack, OneLeft, GifUnit.Settled, GifUnit.Served,
         GifUnit.Ready;
    unit := Stalled(mtvu);
    if interrupt { unit.CheckPathStatus(); }
    unit.WriteControls(false, false, false, true, false);
    ghost var had, s := unit.given, unit.Now();
    unit.AcknowledgeSignal();
    ghost var r := s.(gs := Acknowledged(s.gs));
    assert r.Fine() by { ExecutesFine(r, unit.Now(), mtvu); }
    OneComesBack(r, mtvu);
    assert Returned(had, unit.given, 1);
  }

  lemma ExecutesFine(s: State, after: State, mtvu: bool)
    requires Executes(s, after, mtvu, true)
    ensures s.Fine()
  {}
}
