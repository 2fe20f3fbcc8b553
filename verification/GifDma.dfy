/** The GIF DMA channel on path 3: chunks offered to the GIF unit, the 16-quadword FIFO in front of
    it, and the quadwords that path 3 gives back.  Addresses are in quadwords. */
module GifDma {
  import opened GifTag
  import opened GifParser
  import U = GifUnit

  const FIFO_SIZE := 16

  function Min(a: int, b: int): int { if a < b then a else b }

  /** How much of the block one transfer offers: in intermittent mode, less than all of it. */
  function Chunk(qwc: nat, imt: bool): (n: nat)
    ensures n <= qwc && (qwc > 0 ==> n > 0)
  {
    if imt then if qwc > 64 then qwc - 64 else Min(qwc, 8) else qwc
  }

  /** A transfer that gave back fewer quadwords than it brought kept a prefix of them. */
  lemma KeptPrefix(had: seq<seq<Quad>>, given: seq<seq<Quad>>, data: seq<Quad>, back: nat)
    requires |had| == 3 && back <= |data| && U.Returned(had[2 := had[2] + data], given, back)
    ensures |given| == 3 && given[2] == had[2] + data[..|data| - back] && given[0] == had[0] && given[1] == had[1]
  {}

  /** What the rest of the machine does with the GIF unit between two interrupts of the channel. */
  datatype Action =
    | Transfer(t: U.Transfer, data: seq<Quad>)
    | Mtvu
    | Vif1Interrupt
    | GifCheck
    | Signal
    | Controls(imt: bool, pse: bool, dir: bool, m3r: bool, m3p: bool)

  class GifDma {
    const unit: U.GifUnit
    const memory: int -> Quad
    const fifoHack: bool
    const fifo: array<Quad>
    var fifoSize: nat
    var madr: int
    var qwc: nat
    var str: bool

    ghost var base: int           // where the current block began
    ghost var before: seq<Quad>   // what path 3 and the FIFO were given before it

    ghost predicate Shape()
      reads this, unit, fifo
    {
      unit.Valid() && fifo.Length == FIFO_SIZE && fifoSize <= FIFO_SIZE
    }

    ghost predicate Valid()
      reads this, unit, fifo
    {
      Shape() && unit.Ready()
    }

    constructor (unit: U.GifUnit, memory: int -> Quad, fifoHack: bool)
      requires unit.Valid() && unit.Ready()
      ensures Valid() && this.unit == unit && fifoSize == 0 && !str && fresh(fifo)
    {
      this.unit, this.memory, this.fifoHack := unit, memory, fifoHack;
      fifo := new Quad[FIFO_SIZE];
      fifoSize, madr, qwc, str := 0, 0, 0, false;
    }

    /** n quadwords of memory. */
    function Data(from: int, n: nat): (s: seq<Quad>)
      ensures |s| == n && forall i :: 0 <= i < n ==> s[i] == memory(from + i)
    {
      seq(n, i requires 0 <= i < n => memory(from + i))
    }

    /** What path 3 accepted, and then the FIFO. */
    ghost function Accepted(): seq<Quad>
      reads this, unit, fifo
      requires Shape()
    {
      unit.given[2] + fifo[..fifoSize]
    }

    /** Exactly once: path 3 and the FIFO hold the block from its start to the DMA address, with no gap
        and no repeat. */
    ghost predicate Exact()
      reads this, unit, fifo
      requires Shape()
    {
      base <= madr && Accepted() == before + Data(base, madr - base)
    }

    /** `write_fifo`. */
    method WriteFifo(data: seq<Quad>) returns (n: nat)
      requires fifo.Length == FIFO_SIZE && fifoSize <= FIFO_SIZE
      modifies fifo, `fifoSize
      ensures n == Min(|data|, FIFO_SIZE - old(fifoSize)) && fifoSize == old(fifoSize) + n
      ensures fifo[..fifoSize] == old(fifo[..fifoSize]) + data[..n]
    {
      if fifoSize == FIFO_SIZE { return 0; }
      n := Min(|data|, FIFO_SIZE - fifoSize);
      forall i | 0 <= i < n { fifo[fifoSize + i] := data[i]; }
      fifoSize := fifoSize + n;
    }

    /** The loop of `read_fifo` that moves what was not read to the front. */
    method ShiftFifo(read: nat)
      requires fifo.Length == FIFO_SIZE && 0 < read < fifoSize <= FIFO_SIZE
      modifies fifo, `fifoSize
      ensures fifoSize == old(fifoSize) - read
      ensures fifo[..fifoSize] == old(fifo[read..fifoSize])
    {
      var copyAmount := fifoSize - read;
      var i := 0;
      while i < copyAmount
        invariant 0 <= i <= copyAmount && fifoSize == old(fifoSize)
        invariant forall k :: 0 <= k < i ==> fifo[k] == old(fifo[read + k])
        invariant forall k :: i <= k < FIFO_SIZE ==> fifo[k] == old(fifo[k])
      {
        fifo[i] := fifo[read + i];
        i := i + 1;
      }
      fifoSize := copyAmount;
    }

    /** A DMA transfer to path 3: at least one quadword is kept, and what is kept goes behind what
        path 3 had. */
    method Offer(data: seq<Quad>) returns (n: nat)
      requires unit.Valid() && unit.Ready() && data != [] && unit.CanDoPath3()
      modifies unit
      ensures unit.Valid() && unit.Ready()
      ensures 0 < n <= |data| && unit.given[2] == old(unit.given[2]) + data[..n]
    {
      hide U.Books, U.Unbroken, U.Fakes, U.Handover, U.Holds, U.GifUnit.Settled, U.GifUnit.Served, U.GifUnit.Ready,
           U.GifUnit.Tight;
      unit.ReadyTight();
      ghost var had := unit.given;
      var kept := unit.TransferGSPacketData(U.DmaTransfer, data);
      KeptPrefix(had, unit.given, data, unit.dmaRewind);
      n := kept;
    }

    /** `read_fifo`. */
    method ReadFifo() returns (n: nat)
      requires Valid()
      modifies unit, fifo, `fifoSize
      ensures Valid() && Accepted() == old(Accepted())
      ensures old(fifoSize > 0 && unit.CanDoPath3()) ==> 0 < n && fifoSize == old(fifoSize) - n
      ensures !old(fifoSize > 0 && unit.CanDoPath3()) ==> n == 0 && fifoSize == old(fifoSize) && unit.paths == old(unit.paths)
    {
      hide U.Books, U.Unbroken, U.Fakes, U.GifUnit.Ready, U.GifUnit.CanDoPath3;
      if fifoSize == 0 || !unit.CanDoPath3() { return 0; }
      ghost var held, had := fifo[..fifoSize], unit.given[2];
      n := Offer(fifo[..fifoSize]);
      if n < fifoSize {
        if n > 0 { ShiftFifo(n); }
      } else {
        fifoSize := 0;
      }
      assert held == held[..n] + held[n..];
      assert had + held == had + held[..n] + held[n..];
    }
  
    lemma DataOn(n: nat, more: seq<Quad>, have: seq<Quad>)
      requires base <= madr && have == before + Data(base, madr - base)
      requires n <= |more| && forall i :: 0 <= i < n ==> more[i] == memory(madr + i)
      ensures have + more[..n] == before + Data(base, madr + n - base)
    {
      assert Data(base, madr + n - base) == Data(base, madr - base) + more[..n];
      assert before + (Data(base, madr - base) + more[..n]) == before + Data(base, madr - base) + more[..n];
    }

    /** `incGifChAddr`. */
    method IncGifChAddr(n: nat)
      requires n <= qwc
      modifies `madr, `qwc
      ensures madr == old(madr) + (if str then n else 0) && qwc == old(qwc) - if str then n else 0
    {
      if str {
        madr := madr + n;
        qwc := qwc - n;
      }
    }

    /** The rest of the block goes to the FIFO as far as there is room. */
    method ToFifo() returns (n: nat)
      requires Valid() && Exact() && str && qwc > 0 && fifoSize < FIFO_SIZE
      modifies this`madr, this`qwc, this`fifoSize, fifo
      ensures Valid() && Exact() && n > 0 && madr == old(madr) + n && qwc == old(qwc) - n
    {
      hide U.GifUnit.Valid, U.GifUnit.Ready;
      ghost var have := Accepted();
      n := WriteFifo(Data(madr, qwc));
      DataOn(n, Data(madr, qwc), have);
      assert Accepted() == have + Data(madr, qwc)[..n];
      IncGifChAddr(n);
    }

    /** A chunk of the block goes to path 3. */
    method ToPath3(chunk: nat) returns (n: nat)
      requires Valid() && Exact() && str && 0 < chunk <= qwc && fifoSize == 0 && unit.CanDoPath3()
      modifies this`madr, this`qwc, unit
      ensures Valid() && Exact() && n > 0 && madr == old(madr) + n && qwc == old(qwc) - n
    {
      hide U.Books, U.Unbroken, U.Fakes, U.GifUnit.Ready, U.GifUnit.CanDoPath3;
      ghost var have := Accepted();
      assert have == unit.given[2];
      n := Offer(Data(madr, chunk));
      DataOn(n, Data(madr, chunk), have);
      assert Accepted() == unit.given[2];
      IncGifChAddr(n);
    }

    /** `WRITERING_DMA` for the rest of the block: to path 3 if it can take it, or else to the FIFO.
        The caller has emptied the FIFO if path 3 can take data. */
    method WriteRingDma() returns (n: nat)
      requires Valid() && Exact() && str && qwc > 0
      requires fifoSize > 0 ==> fifoHack || !unit.CanDoPath3()
      modifies this`madr, this`qwc, this`fifoSize, unit, fifo
      ensures Valid() && Exact()
      ensures madr + qwc == old(madr + qwc) && madr >= old(madr)
      ensures madr > old(madr) <==> old(fifoSize < FIFO_SIZE)
    {
      hide U.Books, U.Unbroken, U.Fakes, U.GifUnit.Ready, U.GifUnit.CanDoPath3;
      var chunk := Chunk(qwc, unit.stat.imt);
      if !unit.CanDoPath3() || ((chunk < 8 || fifoSize > 0) && fifoHack) {
        if fifoSize < FIFO_SIZE {
          n := ToFifo();
        } else {
          n := 4;
        }
      } else {
        n := ToPath3(chunk);
      }
    }

    /** The GIF interrupt while a block is transferred: the FIFO goes first, and only when it is empty
        does the block go on.  Whatever the GIF unit is doing, the stream stays exact. */
    method GifInterrupt(dmae: bool)
      requires Valid() && Exact()
      modifies this`madr, this`qwc, this`fifoSize, this`str, unit, fifo
      ensures Valid() && Exact()
      ensures madr + qwc == old(madr + qwc) && madr >= old(madr)
      ensures str ==> old(str)
      ensures old(str) && !str ==> qwc == 0
    {
      hide U.GifUnit.Valid, U.GifUnit.Ready, U.GifUnit.CanDoPath3, U.GifUnit.Tight, U.CheckOn, U.GifUnit.Now;
      unit.CheckPathStatus();
      if unit.gs.queued && fifoSize == FIFO_SIZE { return; }
      if fifoSize > 0 {
        var _ := ReadFifo();
        unit.CheckPathStatus();
        if qwc > 0 && fifoSize > 0 { return; }
      }
      if !str { return; }
      if qwc > 0 {
        if dmae && !unit.stat.pse { var _ := WriteRingDma(); }
        return;
      }
      str := false;
    }

    predicate Fits(a: Action)
      reads unit
    {
      match a
      case Transfer(t, _) => t == U.Direct || t == U.DirectHL || (t == U.XgKick && !unit.mtvu)
      case Mtvu => unit.mtvu
      case _ => true
    }

    /** How many quadwords path 3 gives back in the call of `Execute` that the action leads to. */
    ghost function Lost(a: Action): nat
      reads unit
      requires |unit.paths| == 3
    {
      var s := unit.Now();
      match a
      case Transfer(t, data) =>
        if data == [] || !unit.Accepts(t) then 0
        else U.GivenBack(U.Brought(s.(stat := unit.Queued(t)), unit.PathOf(t), data), unit.mtvu, false)
      case Mtvu => U.GivenBack(s.(fake := s.fake + 1), unit.mtvu, true)
      case Vif1Interrupt => if unit.Resumes2() then U.GivenBack(U.Released(s), unit.mtvu, true) else 0
      case GifCheck => 0
      case Signal => U.GivenBack(s.(gs := U.Acknowledged(s.gs)), unit.mtvu, true)
      case Controls(_, _, _, _, _) => 0
    }

    /** A transfer on another path. */
    method TransferElsewhere(t: U.Transfer, data: seq<Quad>)
      requires unit.Valid() && Fits(Transfer(t, data))
      modifies unit
      ensures unit.Valid() && |old(unit.given)| == 3
      ensures old(unit.Ready()) ==> unit.Ready()
      ensures |unit.given[2]| == |old(unit.given)[2]| - old(Lost(Transfer(t, data))) && unit.given[2] <= old(unit.given)[2]
      ensures old(unit.Tight()) ==> unit.Tight() && old(Lost(Transfer(t, data))) == 0
    {
      hide U.Books, U.Unbroken, U.Fakes, U.Holds, U.Executes, U.GifUnit.Ready, U.GifUnit.Tight, U.GifUnit.Accepts,
           U.GifUnit.Queued,
           U.Brought, U.GivenBack, U.Wraps, U.GifUnit.Transferred, U.EndsInPath2;
      var _ := unit.TransferGSPacketData(t, data);
    }

    /** What path 3 gives back to anyone but the channel is lost: the stream stays exact if and only if that is
        nothing, and it is nothing while path 3 is `Tight`.  Only a control write that ends a pause, while
        path 3 holds a complete packet that it may go on with, leaves the channel without `Ready`. */
    method Meanwhile(a: Action)
      requires Shape() && Fits(a)
      modifies unit
      ensures Shape() && |old(unit.given)| == 3
      ensures unit.Ready() <== if a.Controls? then !unit.CanDoGif() || old(unit.Calm()) else old(unit.Ready())
      ensures a.Controls? && unit.Ready() ==> !unit.CanDoGif() || old(unit.Calm())
      ensures |unit.given[2]| == |old(unit.given)[2]| - old(Lost(a)) && unit.given[2] <= old(unit.given)[2]
      ensures old(Exact()) ==> (Exact() <==> old(Lost(a)) == 0)
      ensures old(unit.Tight()) ==> old(Lost(a)) == 0
      ensures old(unit.Tight()) && !(a.Controls? && unit.Masked() && !old(unit.Masked())) ==> unit.Tight()
    {
      hide U.Books, U.Unbroken, U.Fakes, U.Handover, U.Holds, U.Executes, U.GifUnit.Settled, U.GifUnit.Served,
           U.GifUnit.Ready,
           U.GifUnit.Tight, U.GifUnit.Accepts, U.GifUnit.Queued, U.Brought, U.GivenBack, U.Released, U.GifUnit.Calm,
           U.Wraps, U.GifUnit.Resumes2, U.GifUnit.Transferred, U.CheckOn, Exact;
      ghost var had, lost := unit.given[2], Lost(a);
      CutFrom(had, 0);
      match a {
        case Transfer(t, data) => TransferElsewhere(t, data);
        case Mtvu => var _ := unit.TransferMtvu();
        case Vif1Interrupt => unit.ReleasePath2();
        case GifCheck => unit.CheckPathStatus();
        case Signal => unit.AcknowledgeSignal();
        case Controls(imt, pse, dir, m3r, m3p) => unit.WriteControls(imt, pse, dir, m3r, m3p);
      }
      CutFrom(had, lost);
    }

    /** The stream is exact if path 3 was given s. */
    ghost predicate Whole(s: seq<Quad>)
      reads this, fifo
      requires fifoSize <= fifo.Length
    {
      base <= madr && s + fifo[..fifoSize] == before + Data(base, madr - base)
    }

    /** Path 3 was given `had`, without its last n quadwords. */
    lemma CutFrom(had: seq<Quad>, n: nat)
      requires Shape() && n <= |had| && |unit.given[2]| == |had| - n && unit.given[2] <= had
      ensures n == 0 ==> (Exact() <==> Whole(had))
      ensures Whole(had) ==> (Exact() <==> n == 0)
    {
      hide U.GifUnit.Valid;
    }

    /** A SIGNAL is acknowledged: bytes of the stream are lost if and only if path 3 is masked, gets its turn, and
        has bytes behind the packet that it completes then. */
    method AcknowledgeSignal()
      requires Valid() && Exact()
      modifies unit
      ensures Valid()
      ensures Exact() <==> U.GivenBack(old(unit.Now()).(gs := U.Acknowledged(old(unit.gs))), unit.mtvu, true) == 0
    {
      hide U.Books, U.Unbroken, U.Fakes, U.Executes, U.GifUnit.Settled, U.GifUnit.Ready, U.GifUnit.Tight, U.GivenBack;
      unit.AcknowledgeSignal();
    }

    /** A new block is started when the one before is through. */
    method StartBlock(from: int, n: nat)
      requires Valid() && qwc == 0 && Exact()
      modifies `madr, `qwc, `str, `base, `before
      ensures Valid() && Exact() && madr == from && qwc == n && str
      ensures before == old(before + Data(base, madr - base)) && base == from
    {
      before := before + Data(base, madr - base);
      base, madr, qwc, str := from, from, n, true;
    }
  }
}
