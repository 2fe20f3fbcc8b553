/** DMA source chains with CALL and RET: the channel keeps two return addresses.  The specification is an
    interpreter with an unbounded stack.  Addresses and sizes are in quadwords. */
module DmaChain {
  import opened Arith

  datatype Id = Refe | Cnt | Next | Ref | Refs | Call | Ret | End

  datatype Tag = Tag(id: Id, qwc: nat, addr: nat, irq: bool)

  /** What memory holds, read as tags. */
  type Memory = nat -> Tag

  datatype Transfer = Transfer(addr: nat, qwc: nat)

  // ---- the specification ----

  /** The interpreter is at tag `pc`; `stack` holds the return addresses, the last one on top. */
  datatype Interp = Interp(pc: nat, stack: seq<nat>, ended: bool)

  datatype Done<T> = Done(it: T, transfer: Transfer)

  /** One tag.  With TIE set, a tag with the IRQ bit is the last one. */
  function Interpret(m: Memory, tie: bool, s: Interp): Done<Interp> {
    var t := m(s.pc);
    var data := s.pc + 1;
    var stop := tie && t.irq;
    match t.id
    case Refe => Done(Interp(data, s.stack, true), Transfer(t.addr, t.qwc))
    case Cnt => Done(Interp(data + t.qwc, s.stack, stop), Transfer(data, t.qwc))
    case Next => Done(Interp(t.addr, s.stack, stop), Transfer(data, t.qwc))
    case Ref => Done(Interp(data, s.stack, stop), Transfer(t.addr, t.qwc))
    case Refs => Done(Interp(data, s.stack, stop), Transfer(t.addr, t.qwc))
    case Call => Done(Interp(t.addr, s.stack + [data + t.qwc], stop), Transfer(data, t.qwc))
    case Ret =>
      if s.stack == [] then Done(s.(ended := true), Transfer(data, t.qwc))
      else Done(Interp(s.stack[|s.stack| - 1], s.stack[..|s.stack| - 1], stop), Transfer(data, t.qwc))
    case End => Done(s.(ended := true), Transfer(data, t.qwc))
  }

  // ---- the channel ----

  /** The registers of a channel; `tag` is the tag in CHCR. */
  datatype Channel = Channel(tadr: nat, madr: nat, qwc: nat, asp: nat, asr0: nat, asr1: nat, tag: Id, done: bool)

  /** `hwDmacSrcChainWithStack`, after the tag's address and size were put into MADR and QWC. */
  function SrcChain(c: Channel, id: Id): Channel {
    match id
    case Refe => c.(tadr := c.tadr + 1, done := true)
    case Cnt => c.(tadr := c.tadr + 1, madr := c.tadr + 1, done := false)
    case Next => c.(madr := c.tadr + 1, tadr := c.madr, done := false)
    case Ref => c.(tadr := c.tadr + 1, done := false)
    case Refs => c.(tadr := c.tadr + 1, done := false)
    case Call =>
      var data := c.tadr + 1;
      if c.asp == 0 then c.(madr := data, asr0 := data + c.qwc, asp := 1, tadr := c.madr, done := false)
      else if c.asp == 1 then c.(madr := data, asr1 := data + c.qwc, asp := 2, tadr := c.madr, done := false)
      else c.(madr := data, done := true)
    case Ret =>
      var data := c.tadr + 1;
      if c.asp == 2 then c.(madr := data, tadr := c.asr1, asr1 := 0, asp := 1, done := false)
      else if c.asp == 1 then c.(madr := data, tadr := c.asr0, asr0 := 0, asp := 0, done := false)
      else c.(madr := data, done := true)
    case End => c.(madr := c.tadr + 1, done := true)
  }

  /** `ReadTag` and `checkTieBit`. */
  function ReadTag(m: Memory, tie: bool, c: Channel): Channel {
    var t := m(c.tadr);
    var c1 := SrcChain(c.(tag := t.id, qwc := t.qwc, madr := t.addr), t.id);
    if tie && t.irq then c1.(done := true) else c1
  }

  /** `incGifChAddr` and `hwDmacSrcTadrInc` for n quadwords. */
  function Advance(c: Channel, n: nat): Channel
    requires n <= c.qwc
  {
    var c1 := c.(madr := c.madr + n, qwc := c.qwc - n);
    if c.tag == Cnt then c1.(tadr := c1.madr) else c1
  }

  /** The stack that the two registers hold. */
  function StackOf(c: Channel): seq<nat> {
    if c.asp == 0 then [] else if c.asp == 1 then [c.asr0] else [c.asr0, c.asr1]
  }

  /** The channel in the middle of a tag's data, of which it has moved all but qwc quadwords; `s` is the
      interpreter behind the tag. */
  ghost predicate Moving(c: Channel, s: Interp) {
    && c.asp <= 2 && s.stack == StackOf(c) && c.done == s.ended
    && (!s.ended ==> if c.tag == Cnt then c.tadr == c.madr && s.pc == c.madr + c.qwc else s.pc == c.tadr)
  }

  /** The channel between tags. */
  ghost predicate Agrees(c: Channel, s: Interp) { c.qwc == 0 && Moving(c, s) }

  /** Whether the channel runs out of return addresses at this tag. */
  predicate Overflows(m: Memory, s: Interp) { m(s.pc).id == Call && |s.stack| >= 2 }

  /** Reading a tag sets up the interpreter's transfer; only a CALL at depth two stops the chain early,
      after its data. */
  lemma ReadTagAgrees(m: Memory, tie: bool, c: Channel, s: Interp)
    requires Agrees(c, s) && !s.ended
    ensures s.pc == c.tadr
    ensures var d := Interpret(m, tie, s); var c1 := ReadTag(m, tie, c);
            && d.transfer == Transfer(c1.madr, c1.qwc) && c1.asp <= 2
            && (if Overflows(m, s) then c1.done && StackOf(c1) == s.stack else Moving(c1, d.it))
  {
    match m(s.pc).id
    case Call => CallAgrees(m, tie, c, s);
    case Ret => RetAgrees(m, tie, c, s);
    case _ =>
  }

  lemma CallAgrees(m: Memory, tie: bool, c: Channel, s: Interp)
    requires Agrees(c, s) && !s.ended && m(s.pc).id == Call
    ensures s.pc == c.tadr
    ensures var d := Interpret(m, tie, s); var c1 := ReadTag(m, tie, c);
            && d.transfer == Transfer(c1.madr, c1.qwc) && c1.asp <= 2
            && (if Overflows(m, s) then c1.done && StackOf(c1) == s.stack else Moving(c1, d.it))
  {}

  /** A RET takes the last return address. */
  lemma RetAgrees(m: Memory, tie: bool, c: Channel, s: Interp)
    requires Agrees(c, s) && !s.ended && m(s.pc).id == Ret
    ensures s.pc == c.tadr
    ensures var d := Interpret(m, tie, s); var c1 := ReadTag(m, tie, c);
            && d.transfer == Transfer(c1.madr, c1.qwc) && c1.asp <= 2 && Moving(c1, d.it) && c1.tag == Ret
            && (s.stack != [] ==> c1.tadr == s.stack[|s.stack| - 1])
  {}

  lemma AdvanceMoves(c: Channel, s: Interp, n: nat)
    requires Moving(c, s) && n <= c.qwc
    ensures Moving(Advance(c, n), s) && Advance(c, n).qwc == c.qwc - n
  {}

  /** The chunks in which a tag's data is moved do not matter. */
  function AdvanceAll(c: Channel, chunks: seq<nat>): Channel
    requires Sum(chunks) <= c.qwc
    decreases |chunks|
  {
    if chunks == [] then c else AdvanceAll(Advance(c, chunks[0]), chunks[1..])
  }

  lemma {:induction false} ChunksMove(c: Channel, s: Interp, chunks: seq<nat>)
    requires Moving(c, s) && Sum(chunks) == c.qwc
    ensures Agrees(AdvanceAll(c, chunks), s)
    decreases |chunks|
  {
    hide Moving;
    if chunks != [] {
      AdvanceMoves(c, s, chunks[0]);
      ChunksMove(Advance(c, chunks[0]), s, chunks[1..]);
    }
  }

  // ---- whole chains ----

  /** The transfers of the first k tags, or up to the end. */
  function Transfers(m: Memory, tie: bool, s: Interp, k: nat): seq<Transfer>
    decreases k
  {
    if k == 0 || s.ended then []
    else
      var d := Interpret(m, tie, s);
      [d.transfer] + Transfers(m, tie, d.it, k - 1)
  }

  /** How the data of each tag is cut. */
  type Cutting = (nat, nat) -> seq<nat>

  /** The channel's transfers: read a tag, move its data in chunks, and so on until done. */
  ghost function ChannelTransfers(m: Memory, tie: bool, c: Channel, k: nat, cut: Cutting): seq<Transfer>
    requires forall j, n :: Sum(cut(j, n)) == n
    decreases k
  {
    if k == 0 || c.done then []
    else
      var c1 := ReadTag(m, tie, c);
      [Transfer(c1.madr, c1.qwc)] + ChannelTransfers(m, tie, AdvanceAll(c1, cut(k, c1.qwc)), k - 1, cut)
  }

  /** Whether a third nested CALL comes before the last of the first k tags, and the chain goes on there. */
  predicate Nests(m: Memory, tie: bool, s: Interp, k: nat)
    decreases k
  {
    k > 1 && !s.ended &&
    ((Overflows(m, s) && !Interpret(m, tie, s).it.ended) || (!Overflows(m, s) && Nests(m, tie, Interpret(m, tie, s).it, k - 1)))
  }

  lemma {:induction false} DoneStays(c: Channel, chunks: seq<nat>)
    requires c.done && Sum(chunks) <= c.qwc
    ensures AdvanceAll(c, chunks).done
    decreases |chunks|
  {
    if chunks != [] { DoneStays(Advance(c, chunks[0]), chunks[1..]); }
  }

  /** The channel refines the interpreter: for every memory, every way of cutting the data and any number
      of tags, it makes the same transfers in the same order exactly if no third nested CALL comes
      before the last of them. */
  lemma {:induction false} ChainIsInterpreted(m: Memory, tie: bool, c: Channel, s: Interp, k: nat, cut: Cutting)
    requires forall j, n :: Sum(cut(j, n)) == n
    requires Agrees(c, s)
    ensures ChannelTransfers(m, tie, c, k, cut) == Transfers(m, tie, s, k) <==> !Nests(m, tie, s, k)
    decreases k
  {
    hide Moving, ReadTag, Interpret, Overflows;
    AgreeDone(c, s);
    if k > 0 && !s.ended {
      ReadTagAgrees(m, tie, c, s);
      var c1 := ReadTag(m, tie, c);
      var d := Interpret(m, tie, s);
      var c2 := AdvanceAll(c1, cut(k, c1.qwc));
      var rest := ChannelTransfers(m, tie, c2, k - 1, cut);
      var rest2 := Transfers(m, tie, d.it, k - 1);
      assert ([d.transfer] + rest)[1..] == rest && ([d.transfer] + rest2)[1..] == rest2;
      if Overflows(m, s) {
        DoneStays(c1, cut(k, c1.qwc));
        assert rest == [];
        assert rest2 == [] <==> d.it.ended || k == 1;
      } else {
        ChunksMove(c1, d.it, cut(k, c1.qwc));
        ChainIsInterpreted(m, tie, c2, d.it, k - 1, cut);
        if k == 1 { assert rest == [] && rest2 == []; }
      }
    }
  }

  lemma AgreeDone(c: Channel, s: Interp)
    requires Moving(c, s)
    ensures c.done == s.ended
  {}

  // ---- RET and its CALL ----

  /** The interpreter after k tags. */
  function Steps(m: Memory, tie: bool, s: Interp, k: nat): Interp
    decreases k
  {
    if k == 0 then s else Interpret(m, tie, Steps(m, tie, s, k - 1)).it
  }

  /** The channel after k tags and their data. */
  ghost function ChannelSteps(m: Memory, tie: bool, c: Channel, k: nat, cut: Cutting): Channel
    requires forall j, n :: Sum(cut(j, n)) == n
    decreases k
  {
    if k == 0 then c
    else
      var c1 := ReadTag(m, tie, ChannelSteps(m, tie, c, k - 1, cut));
      AdvanceAll(c1, cut(k, c1.qwc))
  }

  /** The chain does not end within k tags, and no CALL among them is nested too deep. */
  ghost predicate GoesOn(m: Memory, tie: bool, s: Interp, k: nat) {
    forall j :: 0 <= j < k ==> !Steps(m, tie, s, j).ended && !Overflows(m, Steps(m, tie, s, j))
  }

  /** As long as that is so, the channel's registers are the interpreter's state. */
  lemma {:induction false} StepsAgree(m: Memory, tie: bool, c: Channel, s: Interp, k: nat, cut: Cutting)
    requires forall j, n :: Sum(cut(j, n)) == n
    requires Agrees(c, s) && GoesOn(m, tie, s, k)
    ensures Agrees(ChannelSteps(m, tie, c, k, cut), Steps(m, tie, s, k))
    decreases k
  {
    hide Moving, ReadTag, Interpret, Overflows, Agrees;
    if k > 0 {
      StepsAgree(m, tie, c, s, k - 1, cut);
      var c0, s0 := ChannelSteps(m, tie, c, k - 1, cut), Steps(m, tie, s, k - 1);
      ReadTagAgrees(m, tie, c0, s0);
      var c1 := ReadTag(m, tie, c0);
      ChunksMove(c1, Steps(m, tie, s, k), cut(k, c1.qwc));
    }
  }

  /** While the stack stays above `below`, what lies there is untouched. */
  lemma {:induction false} BottomStays(m: Memory, tie: bool, s: Interp, k: nat, below: seq<nat>)
    requires 1 <= k && below <= Steps(m, tie, s, 1).stack
    requires forall j :: 1 <= j <= k ==> |Steps(m, tie, s, j).stack| >= |below|
    ensures below <= Steps(m, tie, s, k).stack
    decreases k
  {
    if k > 1 {
      BottomStays(m, tie, s, k - 1, below);
      assert |Steps(m, tie, s, k).stack| >= |below|;
      InterpretStack(m, tie, Steps(m, tie, s, k - 1), below);
    }
  }

  lemma InterpretStack(m: Memory, tie: bool, s: Interp, below: seq<nat>)
    requires below <= s.stack && |Interpret(m, tie, s).it.stack| >= |below|
    ensures below <= Interpret(m, tie, s).it.stack
  {}

  /** The RET that matches a CALL, before which the stack never got below the CALL's return address, makes
      the channel go on right behind the data of that CALL, with the return addresses it had before. */
  lemma RetMatchesCall(m: Memory, tie: bool, c: Channel, s: Interp, k: nat, cut: Cutting)
    requires forall j, n :: Sum(cut(j, n)) == n
    requires Agrees(c, s) && GoesOn(m, tie, s, k + 1) && k >= 1
    requires m(s.pc).id == Call && m(Steps(m, tie, s, k).pc).id == Ret
    requires forall j :: 1 <= j <= k ==> |Steps(m, tie, s, j).stack| > |s.stack|
    requires |Steps(m, tie, s, k).stack| == |s.stack| + 1
    ensures var d := ChannelSteps(m, tie, c, k + 1, cut);
            d.tadr == c.tadr + 1 + m(c.tadr).qwc && StackOf(d) == StackOf(c)
  {
    hide Moving, ReadTag, Overflows, Agrees, Interpret, AdvanceAll, BackOf;
    assert Steps(m, tie, s, 0) == s && !s.ended;
    assert GoesOn(m, tie, s, k);
    CallAgrees(m, tie, c, s);
    StackAtRet(m, tie, s, k);
    StepsAgree(m, tie, c, s, k, cut);
    var e := ChannelSteps(m, tie, c, k, cut);
    assert !Steps(m, tie, s, k).ended;
    RetRestores(m, tie, e, Steps(m, tie, s, k), s.stack, BackOf(m, s), cut(k + 1, ReadTag(m, tie, e).qwc));
    StacksAgree(c, s);
    assert BackOf(m, s) == c.tadr + 1 + m(c.tadr).qwc by { BackIs(m, s); }
  }

  /** The return address of the CALL at s. */
  function BackOf(m: Memory, s: Interp): nat { s.pc + 1 + m(s.pc).qwc }

  lemma BackIs(m: Memory, s: Interp)
    ensures BackOf(m, s) == s.pc + 1 + m(s.pc).qwc
  {}

  lemma CallPushes(m: Memory, tie: bool, s: Interp)
    requires m(s.pc).id == Call
    ensures Interpret(m, tie, s).it.stack == s.stack + [BackOf(m, s)]
  {}

  lemma StackAtRet(m: Memory, tie: bool, s: Interp, k: nat)
    requires k >= 1 && m(s.pc).id == Call
    requires forall j :: 1 <= j <= k ==> |Steps(m, tie, s, j).stack| > |s.stack|
    requires |Steps(m, tie, s, k).stack| == |s.stack| + 1
    ensures Steps(m, tie, s, k).stack == s.stack + [BackOf(m, s)]
  {
    hide Interpret, BackOf;
    assert Steps(m, tie, s, 0) == s;
    CallPushes(m, tie, s);
    assert Steps(m, tie, s, 1) == Interpret(m, tie, s).it;
    BottomStays(m, tie, s, k, s.stack + [BackOf(m, s)]);
  }

  lemma RetRestores(m: Memory, tie: bool, e: Channel, t: Interp, base: seq<nat>, back: nat, chunks: seq<nat>)
    requires Agrees(e, t) && !t.ended && m(t.pc).id == Ret && t.stack == base + [back]
    requires Sum(chunks) == ReadTag(m, tie, e).qwc
    ensures var d := AdvanceAll(ReadTag(m, tie, e), chunks); d.tadr == back && StackOf(d) == base
  {
    hide ReadTag, Agrees, Interpret, AdvanceAll;
    RetAgrees(m, tie, e, t);
    var c1 := ReadTag(m, tie, e);
    hide Moving;
    KeepsTadr(c1, chunks);
    ChunksMove(c1, Interpret(m, tie, t).it, chunks);
    StacksAgree(AdvanceAll(c1, chunks), Interpret(m, tie, t).it);
    RetPops(m, tie, t);
    assert (base + [back])[..|base|] == base;
  }

  lemma StacksAgree(c: Channel, s: Interp)
    requires Agrees(c, s)
    ensures StackOf(c) == s.stack
  {}

  lemma RetPops(m: Memory, tie: bool, s: Interp)
    requires m(s.pc).id == Ret && s.stack != []
    ensures Interpret(m, tie, s).it.stack == s.stack[..|s.stack| - 1]
  {}

  lemma {:induction false} KeepsTadr(c: Channel, chunks: seq<nat>)
    requires Sum(chunks) <= c.qwc && c.tag != Cnt
    ensures AdvanceAll(c, chunks).tadr == c.tadr
    decreases |chunks|
  {
    if chunks != [] { KeepsTadr(Advance(c, chunks[0]), chunks[1..]); }
  }

  // ---- in place ----

  class DmaChannel {
    const memory: Memory
    var tadr: nat
    var madr: nat
    var qwc: nat
    var asp: nat
    var asr0: nat
    var asr1: nat
    var tag: Id
    var done: bool
    var str: bool     // CHCR.STR: the channel is on
    var mode: nat     // CHCR.MOD: 1 in chain mode
    ghost var interp: Interp

    ghost function View(): Channel
      reads this
    {
      Channel(tadr, madr, qwc, asp, asr0, asr1, tag, done)
    }

    ghost predicate Valid()
      reads this
    {
      Moving(View(), interp)
    }

    constructor (memory: Memory, start: nat)
      ensures Valid() && this.memory == memory && tadr == start && qwc == 0 && !done && str && mode == 1
      ensures interp == Interp(start, [], false)
    {
      this.memory := memory;
      tadr, madr, qwc, asp, asr0, asr1, tag, done := start, 0, 0, 0, 0, 0, Refe, false;
      str, mode := true, 1;
      interp := Interp(start, [], false);
    }

    /** `hwDmacSrcChainWithStack`. */
    method SrcChainWithStack(id: Id) returns (end: bool)
      modifies `tadr, `madr, `asp, `asr0, `asr1
      ensures View().(done := end) == SrcChain(old(View()), id)
    {
      match id
      case Refe => tadr := tadr + 1; return true;
      case Cnt => tadr := tadr + 1; madr := tadr; return false;
      case Next =>
        var temp := madr;
        madr := tadr + 1;
        tadr := temp;
        return false;
      case Ref => tadr := tadr + 1; return false;
      case Refs => tadr := tadr + 1; return false;
      case Call =>
        var temp := madr;
        madr := tadr + 1;
        if asp == 0 {
          asr0 := madr + qwc;
          asp := 1;
        } else if asp == 1 {
          asr1 := madr + qwc;
          asp := 2;
        } else {
          return true;
        }
        tadr := temp;
        return false;
      case Ret =>
        madr := tadr + 1;
        if asp == 2 {
          tadr := asr1;
          asr1 := 0;
          asp := 1;
        } else if asp == 1 {
          tadr := asr0;
          asr0 := 0;
          asp := 0;
        } else {
          return true;
        }
        return false;
      case End => madr := tadr + 1; return true;
    }

    /** `ReadTag` and `checkTieBit`: the next transfer is the interpreter's. */
    method ReadNextTag(tie: bool) returns (overflow: bool)
      requires Valid() && qwc == 0 && !done
      modifies this
      ensures overflow == Overflows(memory, old(interp)) && str == old(str) && mode == old(mode)
      ensures Transfer(madr, qwc) == Interpret(memory, tie, old(interp)).transfer && asp <= 2
      ensures !overflow ==> Valid() && interp == Interpret(memory, tie, old(interp)).it
      ensures overflow ==> done && StackOf(View()) == old(interp).stack
    {
      hide SrcChain, Interpret, Moving;
      AgreeDone(View(), interp);
      ReadTagAgrees(memory, tie, View(), interp);
      var t := memory(tadr);
      overflow := t.id == Call && asp >= 2;
      assert overflow == Overflows(memory, interp) by { StackSize(View(), interp); }
      tag, qwc, madr := t.id, t.qwc, t.addr;
      done := SrcChainWithStack(t.id);
      if tie && t.irq { done := true; }
      interp := Interpret(memory, tie, interp).it;
    }

    static lemma StackSize(c: Channel, s: Interp)
      requires Moving(c, s)
      ensures |s.stack| == c.asp
    {}

    /** `hwDmacSrcTadrInc`. */
    method SrcTadrInc()
      modifies `tadr
      ensures tadr == if str && mode == 1 && tag == Cnt then madr else old(tadr)
    {
      if !str { return; }
      if mode != 1 { return; }
      if tag == Cnt { tadr := madr; }
    }

    /** `incGifChAddr`: nothing moves while the channel is off, and TADR follows MADR in chain mode. */
    method IncAddr(n: nat)
      requires n <= qwc
      modifies `madr, `qwc, `tadr
      ensures !str ==> View() == old(View())
      ensures str && mode == 1 ==> View() == Advance(old(View()), n) && (old(Valid()) ==> Valid())
      ensures str && mode != 1 ==> View() == old(View()).(madr := old(madr) + n, qwc := old(qwc) - n)
    {
      if str {
        madr := madr + n;
        qwc := qwc - n;
        SrcTadrInc();
      }
    }
  }
}
