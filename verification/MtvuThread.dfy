/** `VU_Thread`: the ring of `MtvuRing` in place.  A method that waits lets the VU thread take packets;
    finer interleavings are the subject of `MtvuRing`. */
module MtvuThread {
  import opened GifTag
  import P = MtvuPackets
  import opened R = MtvuRing

  /** The reader may have gone on; the writer's side is as it was. */
  predicate ReaderRan(a: Ring, b: Ring) {
    && b.seen == [] && b.buf == a.buf && b.slack == a.slack && b.writer == a.writer && b.given == a.given
    && b.writePos == a.writePos && b.ackWrite == a.ackWrite
  }

  /** The front packet begins with its tag, and the tag tells its kind. */
  lemma TagTells(r: Ring)
    requires Inv(r) && r.ackRead != r.ackWrite
    ensures |Front(r)| > 0 && r.ackRead + |Front(r)| <= |r.buf| && r.buf[r.ackRead..r.ackRead + |Front(r)|] == Front(r)
    ensures Front(r)[0] == P.NULL_PACKET <==> r.first == []
    ensures r.first == [] ==> Front(r) == [P.NULL_PACKET] && r.wrapped
    ensures r.first != [] ==> P.WellFormed(r.first[0]) && Front(r) == P.Encode(r.first[0])
  {
    FrontStands(r);
    hide WriterInv;
  }

  class VuThread {
    const buffer: array<Word>
    const slack: nat
    var writePos: nat
    var atoWritePos: nat
    var readPos: nat
    var atoReadPos: nat
    ghost var ring: Ring

    /** The fields are those of `ring`. */
    ghost predicate Shows()
      reads this, buffer
    {
      && ring.buf == buffer[..] && ring.slack == slack
      && ring.writePos == writePos && ring.ackWrite == atoWritePos
      && ring.ReadPos() == readPos && ring.ackRead == atoReadPos
    }

    ghost predicate Valid()
      reads this, buffer
    {
      Shows() && Inv(ring)
    }

    /** The writer went to the start too early: the ring looks empty with packets pending, or the reader is
        lapped (`MtvuRing.LappedLoses`). */
    ghost predicate Lost()
      reads this, buffer
    {
      Shows() && ring.Pending() != [] && (atoReadPos == atoWritePos || Lapped(ring))
    }

    constructor (size: nat, slack: nat)
      requires size > 0
      ensures Valid() && fresh(buffer) && ring.seen == [] && ring.writer == Ready && ring.given == [] && ring.taken == []
    {
      buffer := new Word[size];
      this.slack := slack;
      writePos, atoWritePos, readPos, atoReadPos := 0, 0, 0, 0;
      new;
      ring := Start(slack, buffer[..]);
      StartInv(slack, buffer[..]);
    }

    // ---- the VU thread ----

    /** `Read`. */
    method Read() returns (w: Word)
      requires Valid() && |ring.seen| < |Front(ring)|
      modifies `readPos, `ring
      ensures Valid() && ring == old(ring).(seen := Front(old(ring))[..|old(ring).seen| + 1])
      ensures w == Front(old(ring))[|old(ring).seen|]
    {
      hide WriterInv, Layout, P.Encode, P.Decode, P.Whole, Front;
      FrontStands(ring);
      SeenWhole(ring);
      var k := |ring.seen|;
      assert ring.buf[ring.ackRead..ring.ackRead + |Front(ring)|][k] == ring.buf[ring.ReadPos()];
      ReadWordKeeps(ring);
      w := buffer[readPos];
      ring := Next(ring, ReadWord);
      readPos := readPos + 1;
    }

    /** `Read` of several words. */
    method ReadBlock(n: nat) returns (s: seq<Word>)
      requires Valid() && |ring.seen| + n <= |Front(ring)|
      modifies `readPos, `ring
      ensures Valid() && ring == old(ring).(seen := Front(old(ring))[..|old(ring).seen| + n])
      ensures s == Front(old(ring))[|old(ring).seen|..|old(ring).seen| + n]
    {
      hide WriterInv, Layout, P.Encode, P.Decode, P.Whole, Front;
      s := [];
      ghost var k, front := |ring.seen|, Front(ring);
      assert ring.seen == front[..k];
      while |s| < n
        invariant Valid() && |s| <= n && Front(ring) == front && |ring.seen| == k + |s|
        invariant ring == old(ring).(seen := front[..k + |s|]) && s == front[k..k + |s|]
      {
        FrontOf(ring, front[..k + |s| + 1]);
        var w := Read();
        s := s + [w];
      }
    }

    static lemma FrontOf(r: Ring, seen: seq<Word>)
      ensures Front(r.(seen := seen)) == Front(r)
    {}
  
    /** The VU thread has read k words of packet p, which is in front of ring r. */
    ghost predicate Reading(r: Ring, p: P.Packet, k: nat)
      reads this, buffer
    {
      && Valid() && P.WellFormed(p) && Front(r) == P.Encode(p) && k <= |P.Encode(p)|
      && ring == r.(seen := P.Encode(p)[..k])
    }

    method TakeExecute(ghost r: Ring, ghost p: P.Packet) returns (d: P.Packet)
      requires Reading(r, p, 1) && p.Execute?
      modifies `readPos, `ring
      ensures Reading(r, p, |P.Encode(p)|) && d == p
    {
      hide Inv, Front;
      FrontsOf(r);
      var addr := Read();
      var top := Read();
      var itop := Read();
      d := P.Execute(addr, top, itop);
    }

    method TakeUpload(ghost r: Ring, ghost p: P.Packet, micro: bool) returns (d: P.Packet)
      requires Reading(r, p, 1) && (if micro then p.WriteMicro? else p.WriteData?)
      modifies `readPos, `ring
      ensures Reading(r, p, |P.Encode(p)|) && d == p
    {
      hide Inv, Front;
      FrontsOf(r);
      var addr := Read();
      var size := Read();
      var data := ReadBlock(P.SizeU32(size));
      d := if micro then P.WriteMicro(addr, size, data) else P.WriteData(addr, size, data);
    }

    method TakeMask(ghost r: Ring, ghost p: P.Packet, col: bool) returns (d: P.Packet)
      requires Reading(r, p, 1) && (if col then p.WriteCol? else p.WriteRow?)
      modifies `readPos, `ring
      ensures Reading(r, p, |P.Encode(p)|) && d == p
    {
      hide Inv, Front;
      FrontsOf(r);
      var data := ReadBlock(P.MASK_WORDS);
      d := if col then P.WriteCol(data) else P.WriteRow(data);
    }

    method TakeUnpack(ghost r: Ring, ghost p: P.Packet) returns (d: P.Packet)
      requires Reading(r, p, 1) && p.Unpack?
      modifies `readPos, `ring
      ensures Reading(r, p, |P.Encode(p)|) && d == p
    {
      hide Inv, Front, P.Encode;
      FrontsOf(r);
      P.UnpackParts(p);
      var vif := ReadBlock(P.VIF_WORDS);
      var regs := ReadBlock(P.REGS_WORDS);
      var size := Read();
      var data := ReadBlock(P.SizeU32(size));
      d := P.Unpack(vif, regs, size, data);
    }

    /** One round of `ExecuteRingBuffer`: read the packet in front and commit the position behind it. */
    method TakePacket() returns (d: P.Decoded)
      requires Valid() && ring.seen == [] && atoReadPos != atoWritePos
      modifies `readPos, `atoReadPos, `ring
      ensures Valid() && ReaderRan(old(ring), ring)
      ensures d == if old(ring).first != [] then P.Packet(old(ring).first[0]) else P.Null
      ensures ring.taken == old(ring).taken + if old(ring).first != [] then [old(ring).first[0]] else []
      ensures Rounds(ring) < Rounds(old(ring))
    {
      hide P.Whole, Front, Inv, P.Encode, ReaderRan, Rounds;
      TagTells(ring);
      ghost var r, front := ring, Front(ring);
      FrontsOf(r);
      ghost var p := if r.first != [] then r.first[0] else P.WriteCol([0, 0, 0, 0]);
      TagOf(p);
      var tag := Read();
      assert r.first != [] ==> Reading(r, p, 1);
      var q := P.Execute(0, 0, 0);
      if tag == P.NULL_PACKET {
        readPos := 0;
        d := P.Null;
        assert front == front[..1];
      } else {
        if tag == P.VU_EXECUTE { q := TakeExecute(r, p); }
        else if tag == P.VU_WRITE_MICRO || tag == P.VU_WRITE_DATA { q := TakeUpload(r, p, tag == P.VU_WRITE_MICRO); }
        else if tag == P.VIF_WRITE_COL || tag == P.VIF_WRITE_ROW { q := TakeMask(r, p, tag == P.VIF_WRITE_COL); }
        else { q := TakeUnpack(r, p); }
        d := P.Packet(q);
        assert front == front[..|front|];
      }
      CommitReadPos(r);
    }

    /** Packets and null packets that the reader has yet to take. */
    static function Rounds(r: Ring): nat { |r.first| + |r.second| + if r.wrapped then 1 else 0 }

    static lemma FrontsOf(r: Ring)
      ensures forall seen :: Front(r.(seen := seen)) == Front(r)
    {}

    /** The fields of a packet, as the words of its encoding. */
    static lemma TagOf(p: P.Packet)
      requires P.WellFormed(p)
      ensures var e := P.Encode(p);
              && (p.Execute? <==> e[0] == P.VU_EXECUTE) && (p.WriteMicro? <==> e[0] == P.VU_WRITE_MICRO)
              && (p.WriteData? <==> e[0] == P.VU_WRITE_DATA) && (p.WriteCol? <==> e[0] == P.VIF_WRITE_COL)
              && (p.WriteRow? <==> e[0] == P.VIF_WRITE_ROW) && (p.Unpack? <==> e[0] == P.VIF_UNPACK)
              && e[0] != P.NULL_PACKET
    {}

    /** `CommitReadPos`, when the whole front packet is read. */
    method CommitReadPos(ghost r: Ring)
      requires Inv(r) && r.seen == [] && r.ackRead != r.ackWrite && ring == r.(seen := Front(r))
      requires ring.buf == buffer[..] && ring.slack == slack
      requires ring.writePos == writePos && ring.ackWrite == atoWritePos && ring.ackRead == atoReadPos
      requires readPos == if r.first == [] then 0 else ring.ReadPos()
      modifies `atoReadPos, `ring
      ensures Valid() && ReaderRan(r, ring) && Rounds(ring) < Rounds(r)
      ensures ring.taken == r.taken + if r.first != [] then [r.first[0]] else []
    {
      hide WriterInv, Layout, Tile, P.Whole, P.Encode, P.Decode, P.Length;
      TagTells(r);
      WholeFront(r);
      SeenWhole(ring);
      NextCommitRead(ring);
      CommitReadKeeps(ring);
      ring := Next(ring, CommitRead);
      atoReadPos := readPos;
    }

    static lemma WholeFront(r: Ring)
      requires Inv(r)
      ensures Inv(r.(seen := Front(r)))
    {
      hide Layout, P.Encode;
      FrontsOf(r);
      WriterSame(r, r.(seen := Front(r)));
      assert Front(r)[..|Front(r)|] == Front(r);
    }
  
    /** `ExecuteRingBuffer` while nothing more is sent: the VU thread takes every packet. */
    method ExecuteRingBuffer()
      requires Valid() && ring.seen == []
      modifies `readPos, `atoReadPos, `ring
      ensures Valid() && ReaderRan(old(ring), ring)
      ensures ring.taken == ring.given && atoReadPos == atoWritePos
    {
      hide WriterInv, Layout, Tile, Front;
      while atoReadPos != atoWritePos
        invariant Valid() && ReaderRan(old(ring), ring)
        decreases Rounds(ring)
      {
        var _ := TakePacket();
      }
      FrontStands(ring);
      assert ring.Pending() == [];
      assert ring.taken + [] == ring.taken;
    }

    /** The VU thread takes any number of packets, as it may at any moment. */
    method VuMayRun()
      requires Valid() && ring.seen == []
      modifies `readPos, `atoReadPos, `ring
      ensures Valid() && ReaderRan(old(ring), ring) && Rounds(ring) <= Rounds(old(ring))
    {
      hide Inv;
      var more: bool := *;
      while more && atoReadPos != atoWritePos
        invariant Valid() && ReaderRan(old(ring), ring) && Rounds(ring) <= Rounds(old(ring))
        decreases Rounds(ring)
      {
        var _ := TakePacket();
        more := *;
      }
    }

    // ---- the EE thread ----

    /** `WaitOnSize`: the VU thread runs until there is room, and may run on after the test. */
    method WaitOnSize(size: nat)
      requires Valid() && ring.seen == [] && writePos == atoWritePos
      modifies `readPos, `atoReadPos, `ring
      ensures Valid() && ReaderRan(old(ring), ring) && Rounds(ring) <= Rounds(old(ring))
      ensures Passes(ring, size)
    {
      hide Inv;
      while true
        invariant Valid() && ReaderRan(old(ring), ring) && Rounds(ring) <= Rounds(old(ring))
        decreases Rounds(ring)
      {
        var at := atoReadPos;
        if at <= writePos { break; }
        if at > writePos + size + slack { break; }
        var _ := TakePacket();
        VuMayRun();
      }
    }

    /** A step of the EE thread that touches none of the fields. */
    ghost method Note(s: Step)
      requires Valid() && ring.seen == [] && (s.Begin? || s.CheckNull? || s.CheckRoom?) && Enabled(ring, s) && Harmless(ring, s)
      modifies `ring
      ensures Valid() && ring == Next(old(ring), s) && ring.seen == []
    {
      hide Inv, P.Encode;
      ChecksKeep(ring, s);
      ring := Next(ring, s);
    }

    /** `ReserveSpace` for packet p.  It is sound unless the writer goes back to the start while the
        committed read position is 0 or still belongs to the lap before. */
    method ReserveSpace(size: nat, ghost p: P.Packet) returns (sound: bool)
      requires Valid() && ring.seen == [] && ring.writer == Ready && Allowed(ring, p)
      requires size == |P.Encode(p)|
      modifies this, buffer
      ensures sound ==> Filling(p, 0) && ring.given == old(ring).given
      ensures !sound ==> Lost() && ring.given == old(ring).given
      ensures size <= slack + 2 && !sound ==> atoReadPos == 0
    {
      hide Inv, P.Encode, Layout, Next, Lapped;
      BeginIs(ring, p);
      Note(Begin(p));
      Positions(ring);
      if writePos + size > buffer.Length - 1 {
        WaitOnSize(1);
        sound := GoToStart(p);
        if !sound { return; }
      }
      Positions(ring);
      WaitOnSize(size);
      CheckRoomIs(ring);
      Note(CheckRoom);
      sound := true;
    }

    /** The writer is about to store word k of packet p. */
    ghost predicate Filling(p: P.Packet, k: nat)
      reads this, buffer
    {
      Valid() && ring.seen == [] && ring.writer == Fill(p, k) && P.WellFormed(p)
    }

    static lemma Positions(r: Ring)
      requires Inv(r) && (r.writer.WaitNull? || r.writer.WaitRoom?)
      ensures r.writePos == r.ackWrite < |r.buf|
    {
      hide Layout, Started, P.Encode;
    }

    static lemma BeginIs(r: Ring, p: P.Packet)
      requires r.writer == Ready && Allowed(r, p)
      ensures Enabled(r, Begin(p))
      ensures Next(r, Begin(p)) == r.(writer := if r.writePos + |P.Encode(p)| > |r.buf| - 1 then WaitNull(p) else WaitRoom(p))
    {}

    static lemma CheckRoomIs(r: Ring)
      requires r.writer.WaitRoom? && Passes(r, |P.Encode(r.writer.p)|)
      ensures Enabled(r, CheckRoom) && Next(r, CheckRoom) == r.(writer := Fill(r.writer.p, 0))
    {}

    static lemma CheckNullIs(r: Ring)
      requires r.writer.WaitNull? && Passes(r, 1)
      ensures Enabled(r, CheckNull) && Next(r, CheckNull) == r.(writer := PutNull(r.writer.p))
    {}

    /** The wrapping branch of `ReserveSpace` after its wait. */
    method GoToStart(ghost p: P.Packet) returns (sound: bool)
      requires Valid() && ring.seen == [] && ring.writer == WaitNull(p) && Passes(ring, 1)
      modifies `writePos, `atoWritePos, `ring, buffer
      ensures sound ==> Valid() && ring.seen == [] && ring.writer == WaitRoom(p) && ring.given == old(ring).given
      ensures sound ==> ring.buf == buffer[..] && |ring.buf| == |old(ring).buf|
      ensures !sound ==> Lost() && ring.given == old(ring).given
      ensures sound <==> 0 < atoReadPos && !old(ring.wrapped)
      ensures |P.Encode(p)| <= slack + 2 ==> !old(ring.wrapped)
    {
      hide Inv, P.Encode, Layout, Tile, Lapped;
      Positions(ring);
      CheckNullIs(ring);
      AheadWhenWrapped(ring);
      sound := 0 < atoReadPos <= writePos;
      ghost var r := ring;
      buffer[writePos] := P.NULL_PACKET;
      writePos := 0;
      atoWritePos := writePos;
      ring := Next(Next(Next(ring, CheckNull), StoreNull), CommitWrap);
      Wrapped(r, p);
    }

    static lemma AheadWhenWrapped(r: Ring)
      requires Inv(r)
      ensures r.wrapped <==> r.ackRead > r.ackWrite
    {
      LayoutBounds(r.buf, r.ackRead, r.ackWrite, r.first, r.second, r.wrapped, r.nullAt);
    }

    /** What becomes of the ring when the writer goes to the start. */
    static lemma Wrapped(r: Ring, p: P.Packet)
      requires Inv(r) && r.writer == WaitNull(p) && Passes(r, 1)
      ensures Enabled(r, CheckNull) && Enabled(Next(r, CheckNull), StoreNull)
      ensures Enabled(Next(Next(r, CheckNull), StoreNull), CommitWrap)
      ensures var t := Next(Next(Next(r, CheckNull), StoreNull), CommitWrap);
              && (if !r.wrapped && r.ackRead > 0 then Inv(t) else t.Pending() != [] && (t.ackRead == t.ackWrite || Lapped(t)))
              && (|P.Encode(p)| <= r.slack + 2 ==> !r.wrapped)
    {
      hide Inv, P.Encode, Layout, Tile, Lapped;
      Positions(r);
      CheckNullIs(r);
      if |P.Encode(p)| <= r.slack + 2 { CheckNullOnSameLap(r); }
      if r.wrapped {
        LapsIntoLapped(r, p);
        LappedPending(Next(Next(Next(r, CheckNull), StoreNull), CommitWrap));
      } else {
        ChecksKeep(r, CheckNull);
        var v := Next(r, CheckNull);
        StoreNullKeeps(v);
        WrapNeedsReader(Next(v, StoreNull));
      }
    }

    static lemma LappedPending(r: Ring)
      requires Lapped(r)
      ensures r.Pending() != []
    {
      hide Tile;
    }

    /** `Write` of one word. */
    method Write(w: Word, ghost p: P.Packet, ghost k: nat)
      requires Filling(p, k) && k < |P.Encode(p)| && w == P.Encode(p)[k]
      modifies buffer, `writePos, `ring
      ensures Filling(p, k + 1) && ring.given == old(ring).given
    {
      hide P.Encode, Layout, Tile, Started;
      StoreKeeps(ring);
      buffer[writePos] := w;
      ring := Next(ring, Store);
      writePos := writePos + 1;
    }

    /** `Write` of several words. */
    method WriteBlock(data: seq<Word>, ghost p: P.Packet, ghost k: nat)
      requires Filling(p, k) && k + |data| <= |P.Encode(p)| && data == P.Encode(p)[k..k + |data|]
      modifies buffer, `writePos, `ring
      ensures Filling(p, k + |data|) && ring.given == old(ring).given
    {
      hide P.Encode, Inv;
      var i := 0;
      while i < |data|
        invariant i <= |data| && Filling(p, k + i) && ring.given == old(ring).given
      {
        assert data[i] == P.Encode(p)[k..k + |data|][i] == P.Encode(p)[k + i];
        Write(data[i], p, k + i);
        i := i + 1;
      }
    }

    /** `CommitWritePos`. */
    method CommitWritePos(ghost p: P.Packet)
      requires Filling(p, |P.Encode(p)|)
      modifies `atoWritePos, `ring
      ensures Sent(p, ring.given) && ring.given == old(ring).given + [p]
    {
      hide P.Encode, Layout, Tile, Inv;
      CommitWriteKeeps(ring);
      ring := Next(ring, CommitWrite);
      atoWritePos := writePos;
    }

    /** Packet p is the last one that was sent. */
    ghost predicate Sent(p: P.Packet, given: seq<P.Packet>)
      reads this, buffer
    {
      Valid() && ring.seen == [] && ring.writer == Ready && ring.given == given && given != [] && given[|given| - 1] == p
    }
  
    /** Sending packet p: the reader will find it behind all packets sent before, unless the ring lost
        them on the way; with a packet of at most two words more than the slack, only for want of a
        first read. */
    twostate predicate Sends(p: P.Packet, sound: bool)
      reads this, buffer
    {
      && (sound ==> Sent(p, old(ring).given + [p]))
      && (!sound ==> Lost() && (|P.Encode(p)| <= slack + 2 ==> atoReadPos == 0))
    }

    /** `ExecuteVU`. */
    method ExecuteVU(addr: Word, top: Word, itop: Word) returns (sound: bool)
      requires Valid() && ring.seen == [] && ring.writer == Ready && Allowed(ring, P.Execute(addr, top, itop))
      modifies this, buffer
      ensures Sends(P.Execute(addr, top, itop), sound)
    {
      hide Inv;
      ghost var p := P.Execute(addr, top, itop);
      sound := ReserveSpace(4, p);
      if !sound { return; }
      Write(P.VU_EXECUTE, p, 0);
      Write(addr, p, 1);
      Write(top, p, 2);
      Write(itop, p, 3);
      CommitWritePos(p);
    }

    /** `WriteMicroMem`. */
    method WriteMicroMem(addr: Word, size: Word, data: seq<Word>) returns (sound: bool)
      requires Valid() && ring.seen == [] && ring.writer == Ready && Allowed(ring, P.WriteMicro(addr, size, data))
      modifies this, buffer
      ensures Sends(P.WriteMicro(addr, size, data), sound)
    {
      hide Inv;
      ghost var p := P.WriteMicro(addr, size, data);
      sound := ReserveSpace(3 + P.SizeU32(size), p);
      if !sound { return; }
      Write(P.VU_WRITE_MICRO, p, 0);
      Write(addr, p, 1);
      Write(size, p, 2);
      WriteBlock(data, p, 3);
      CommitWritePos(p);
    }

    /** `WriteDataMem`. */
    method WriteDataMem(addr: Word, size: Word, data: seq<Word>) returns (sound: bool)
      requires Valid() && ring.seen == [] && ring.writer == Ready && Allowed(ring, P.WriteData(addr, size, data))
      modifies this, buffer
      ensures Sends(P.WriteData(addr, size, data), sound)
    {
      hide Inv;
      ghost var p := P.WriteData(addr, size, data);
      sound := ReserveSpace(3 + P.SizeU32(size), p);
      if !sound { return; }
      Write(P.VU_WRITE_DATA, p, 0);
      Write(addr, p, 1);
      Write(size, p, 2);
      WriteBlock(data, p, 3);
      CommitWritePos(p);
    }

    /** `WriteCol` and `WriteRow`. */
    method WriteMask(col: bool, data: seq<Word>) returns (sound: bool)
      requires Valid() && ring.seen == [] && ring.writer == Ready
      requires Allowed(ring, if col then P.WriteCol(data) else P.WriteRow(data))
      modifies this, buffer
      ensures Sends(if col then P.WriteCol(data) else P.WriteRow(data), sound)
    {
      hide Inv;
      ghost var p := if col then P.WriteCol(data) else P.WriteRow(data);
      sound := ReserveSpace(1 + P.MASK_WORDS, p);
      if !sound { return; }
      Write(if col then P.VIF_WRITE_COL else P.VIF_WRITE_ROW, p, 0);
      WriteBlock(data, p, 1);
      CommitWritePos(p);
    }

    /** `VifUnpack`. */
    method VifUnpack(vif: seq<Word>, regs: seq<Word>, size: Word, data: seq<Word>) returns (sound: bool)
      requires Valid() && ring.seen == [] && ring.writer == Ready && Allowed(ring, P.Unpack(vif, regs, size, data))
      modifies this, buffer
      ensures Sends(P.Unpack(vif, regs, size, data), sound)
    {
      hide Inv, P.Encode;
      ghost var p := P.Unpack(vif, regs, size, data);
      P.UnpackParts(p);
      sound := ReserveSpace(1 + P.VIF_WORDS + P.REGS_WORDS + 1 + P.SizeU32(size), p);
      if !sound { return; }
      Write(P.VIF_UNPACK, p, 0);
      WriteBlock(vif, p, 1);
      WriteBlock(regs, p, 1 + P.VIF_WORDS);
      Write(size, p, 1 + P.VIF_WORDS + P.REGS_WORDS);
      WriteBlock(data, p, 2 + P.VIF_WORDS + P.REGS_WORDS);
      CommitWritePos(p);
    }
  }
}
