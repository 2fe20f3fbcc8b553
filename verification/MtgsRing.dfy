/** The command ring between the EE and the GS thread: positions run modulo the size, and a packet may
    lie across the end of the ring. */
module MtgsRing {
  import opened GifTag
  import opened Arith

  const VSYNC: Word := 3
  const VSYNC_WORDS := 16    // the size of RingCmdPacket_Vsync

  /** The position p or p - n, whichever is in the ring: `& RingBufferMask` for p < 2n. */
  function Wrap(p: nat, n: nat): nat { if p >= n then p - n else p }

  lemma WrapIsMod(p: nat, n: nat)
    requires p < 2 * n
    ensures p % n == Wrap(p, n)
  {
    if p >= n { DivModOf(n, 1, p - n); } else { DivModOf(n, 0, p); }
  }

  /** How far position j is behind position `at`. */
  function Distance(at: nat, j: nat, n: nat): int { if j >= at then j - at else j + n - at }

  /** The k words from position `at` on. */
  function Words(b: seq<Quad>, at: nat, k: nat): (s: seq<Quad>)
    requires at < |b| && k <= |b|
    ensures |s| == k && forall i :: 0 <= i < k ==> s[i] == b[Wrap(at + i, |b|)]
  {
    seq(k, i requires 0 <= i < k => b[Wrap(at + i, |b|)])
  }

  /** s written over the ring from position `at` on. */
  function Put(b: seq<Quad>, at: nat, s: seq<Quad>): (r: seq<Quad>)
    requires at < |b| && |s| <= |b|
    ensures |r| == |b|
    ensures forall j :: 0 <= j < |b| ==> r[j] == if Distance(at, j, |b|) < |s| then s[Distance(at, j, |b|)] else b[j]
  {
    seq(|b|, j requires 0 <= j < |b| => if Distance(at, j, |b|) < |s| then s[Distance(at, j, |b|)] else b[j])
  }

  /** What is written across the end of the ring is read back. */
  lemma PutThere(b: seq<Quad>, at: nat, s: seq<Quad>)
    requires at < |b| && |s| <= |b|
    ensures Words(Put(b, at, s), at, |s|) == s
  {}

  /** Writing behind k words leaves them alone, if there is room. */
  lemma PutElsewhere(b: seq<Quad>, r: nat, k: nat, s: seq<Quad>)
    requires r < |b| && k + |s| <= |b| && 0 < |b|
    requires Wrap(r + k, |b|) < |b|
    ensures Words(Put(b, Wrap(r + k, |b|), s), r, k) == Words(b, r, k)
  {}

  /** A packet written piece by piece. */
  lemma PutPieces(b: seq<Quad>, at: nat, tag: Quad, s: seq<Quad>, last: Quad)
    requires at < |b| && |s| + 2 < |b|
    ensures Wrap(at + 1, |b|) < |b| && Wrap(Wrap(at + 1, |b|) + |s|, |b|) < |b|
    ensures Put(b[at := tag], Wrap(at + 1, |b|), s)[Wrap(Wrap(at + 1, |b|) + |s|, |b|) := last] == Put(b, at, [tag] + s + [last])
    ensures Wrap(Wrap(Wrap(at + 1, |b|) + |s|, |b|) + 1, |b|) == Wrap(at + |s| + 2, |b|)
  {}

  lemma WordsSplit(b: seq<Quad>, at: nat, j: nat, k: nat)
    requires at < |b| && j + k <= |b|
    ensures Words(b, at, j + k)[..j] == Words(b, at, j)
    ensures at + j < 2 * |b| && (j < |b| ==> Words(b, at, j + k)[j..] == Words(b, Wrap(at + j, |b|), k))
  {}

  lemma WrapOn(at: nat, j: nat, k: nat, n: nat)
    requires at < n && j + k < n
    ensures Wrap(at + j, n) < n && Wrap(Wrap(at + j, n) + k, n) == Wrap(at + (j + k), n)
  {}

  /** `MemCopy_WrappedDest`. */
  method MemCopyWrappedDest(src: seq<Quad>, dest: array<Quad>, destStart: nat) returns (next: nat)
    requires destStart < dest.Length && |src| <= dest.Length
    modifies dest
    ensures dest[..] == Put(old(dest[..]), destStart, src) && next == Wrap(destStart + |src|, dest.Length)
  {
    var len := |src|;
    var endpos := destStart + len;
    ghost var was := dest[..];
    if endpos < dest.Length {
      forall i | 0 <= i < len { dest[destStart + i] := src[i]; }
      next := destStart + len;
    } else {
      var firstcopylen := dest.Length - destStart;
      forall i | 0 <= i < firstcopylen { dest[destStart + i] := src[i]; }
      WrapIsMod(endpos, dest.Length);
      next := endpos % dest.Length;
      forall i | 0 <= i < next { dest[i] := src[firstcopylen + i]; }
    }
    forall j | 0 <= j < |was| ensures dest[j] == Put(was, destStart, src)[j] {}
  }

  /** `MemCopy_WrappedSrc`. */
  method MemCopyWrappedSrc(src: array<Quad>, srcStart: nat, len: nat) returns (dest: seq<Quad>, next: nat)
    requires srcStart < src.Length && len <= src.Length
    ensures dest == Words(src[..], srcStart, len) && next == Wrap(srcStart + len, src.Length)
  {
    var endpos := srcStart + len;
    if endpos < src.Length {
      dest := src[srcStart..endpos];
      next := srcStart + len;
    } else {
      var firstcopylen := src.Length - srcStart;
      WrapIsMod(endpos, src.Length);
      next := endpos % src.Length;
      dest := src[srcStart..] + src[..next];
    }
  }

  // ---- the ring as a queue ----

  /** Words that the packet with tag q takes, tag included. */
  function Length(q: Quad): nat { if q.w0 == VSYNC then 1 + q.w1 else 1 }

  predicate WellFormed(pk: seq<Quad>) {
    pk != [] && |pk| == Length(pk[0]) && (pk[0].w0 == VSYNC ==> pk[0].w1 == VSYNC_WORDS)
  }

  /** `packet` is being written, `stored` words of it are in the ring; `queue` is committed and not read. */
  datatype Ring = Ring(buf: seq<Quad>, readPos: nat, writePos: nat, packet: seq<Quad>, stored: nat,
                       queue: seq<seq<Quad>>, given: seq<seq<Quad>>, taken: seq<seq<Quad>>)

  function Flat(q: seq<seq<Quad>>): seq<Quad> {
    if q == [] then [] else q[0] + Flat(q[1..])
  }

  lemma {:induction false} FlatAppend(q: seq<seq<Quad>>, p: seq<Quad>)
    ensures Flat(q + [p]) == Flat(q) + p
    decreases |q|
  {
    if q != [] {
      assert (q + [p])[1..] == q[1..] + [p];
      FlatAppend(q[1..], p);
    }
  }

  /** The test of `GenericStall`. */
  function FreeRoom(r: Ring): int {
    if r.writePos < r.readPos then r.readPos - r.writePos else |r.buf| - (r.writePos - r.readPos)
  }

  ghost predicate Inv(r: Ring) {
    && r.readPos < |r.buf| && |Flat(r.queue)| + |r.packet| < |r.buf|
    && r.writePos == Wrap(r.readPos + |Flat(r.queue)|, |r.buf|)
    && Words(r.buf, r.readPos, |Flat(r.queue)|) == Flat(r.queue)
    && r.stored <= |r.packet| && Words(r.buf, r.writePos, r.stored) == r.packet[..r.stored]
    && (forall k :: 0 <= k < |r.queue| ==> WellFormed(r.queue[k]))
    && (r.packet != [] ==> WellFormed(r.packet))
    && r.given == r.taken + r.queue
  }

  datatype Step = Begin(pk: seq<Quad>) | Store | Commit | Take

  predicate Enabled(r: Ring, s: Step) {
    match s
    case Begin(pk) => r.packet == [] && WellFormed(pk) && FreeRoom(r) > |pk|
    case Store => r.stored < |r.packet| <= |r.buf| && r.writePos < |r.buf|
    case Commit => r.packet != [] && r.stored == |r.packet|
    case Take => r.readPos != r.writePos && r.readPos < |r.buf| && Length(r.buf[r.readPos]) <= |r.buf|
  }

  function Next(r: Ring, s: Step): Ring
    requires Enabled(r, s)
  {
    match s
    case Begin(pk) => r.(packet := pk, stored := 0)
    case Store => r.(buf := r.buf[Wrap(r.writePos + r.stored, |r.buf|) := r.packet[r.stored]], stored := r.stored + 1)
    case Commit =>
      r.(writePos := Wrap(r.writePos + |r.packet|, |r.buf|), packet := [], stored := 0,
         queue := r.queue + [r.packet], given := r.given + [r.packet])
    case Take =>
      var n := Length(r.buf[r.readPos]);
      r.(readPos := Wrap(r.readPos + n, |r.buf|), taken := r.taken + [Words(r.buf, r.readPos, n)],
         queue := if r.queue == [] then [] else r.queue[1..])
  }

  function Start(buf: seq<Quad>): Ring { Ring(buf, 0, 0, [], 0, [], [], []) }

  /** The free room is what is not unread, and the ring is empty exactly if the positions are equal. */
  lemma RoomIs(r: Ring)
    requires Inv(r)
    ensures FreeRoom(r) == |r.buf| - |Flat(r.queue)|
    ensures r.readPos == r.writePos <==> r.queue == []
  {
    hide Words;
    if r.queue != [] { assert |r.queue[0]| > 0; }
  }

  lemma BeginKeeps(r: Ring, pk: seq<Quad>)
    requires Inv(r) && Enabled(r, Begin(pk))
    ensures Inv(Next(r, Begin(pk)))
  {
    RoomIs(r);
  }

  lemma StoreKeeps(r: Ring)
    requires Inv(r) && Enabled(r, Store)
    ensures Inv(Next(r, Store))
  {
    hide Flat, WellFormed;
    var t := Next(r, Store);
    var n := |Flat(r.queue)|;
    assert Words(t.buf, r.readPos, n) == Words(r.buf, r.readPos, n);
    assert Words(t.buf, r.writePos, r.stored + 1) == r.packet[..r.stored + 1];
  }

  lemma CommitKeeps(r: Ring)
    requires Inv(r) && Enabled(r, Commit)
    ensures Inv(Next(r, Commit))
  {
    hide WellFormed, Words, Wrap;
    var flat := Flat(r.queue);
    FlatAppend(r.queue, r.packet);
    hide Flat;
    assert r.packet[..|r.packet|] == r.packet;
    WrapOn(r.readPos, |flat|, |r.packet|, |r.buf|);
    WrapOn(r.readPos, |flat| + |r.packet|, 0, |r.buf|);
    WordsJoin(r.buf, r.readPos, flat, r.packet);
    NoWords(r.buf, Wrap(r.writePos + |r.packet|, |r.buf|));
    assert r.taken + r.queue + [r.packet] == r.taken + (r.queue + [r.packet]);
  }

  lemma NoWords(b: seq<Quad>, at: nat)
    requires at < |b|
    ensures Words(b, at, 0) == []
  {}

  /** The ring without the packet in front. */
  function Popped(r: Ring): Ring
    requires r.queue != []
  {
    r.(readPos := Wrap(r.readPos + |r.queue[0]|, |r.buf|), taken := r.taken + [r.queue[0]], queue := r.queue[1..])
  }

  lemma WordsJoin(b: seq<Quad>, at: nat, s: seq<Quad>, rest: seq<Quad>)
    requires at < |b| && |s| + |rest| < |b| && Words(b, at, |s|) == s
    requires Wrap(at + |s|, |b|) < |b| && Words(b, Wrap(at + |s|, |b|), |rest|) == rest
    ensures Words(b, at, |s| + |rest|) == s + rest
  {
    WordsSplit(b, at, |s|, |rest|);
    hide Words;
    var all := Words(b, at, |s| + |rest|);
    assert all == all[..|s|] + all[|s|..];
  }

  /** The words of two pieces, one behind the other. */
  lemma WordsOfBoth(b: seq<Quad>, at: nat, s: seq<Quad>, rest: seq<Quad>)
    requires at < |b| && |s| + |rest| < |b| && Words(b, at, |s| + |rest|) == s + rest
    ensures Words(b, at, |s|) == s
    ensures Wrap(at + |s|, |b|) < |b| && Words(b, Wrap(at + |s|, |b|), |rest|) == rest
  {
    WordsSplit(b, at, |s|, |rest|);
    hide Words;
    assert (s + rest)[..|s|] == s && (s + rest)[|s|..] == rest;
  }

  /** Where the packet in front and the rest of the queue stand. */
  lemma FrontStands(r: Ring)
    requires Inv(r) && r.queue != []
    ensures var pk := r.queue[0]; var rest := Flat(r.queue[1..]);
            && |pk| > 0 && |pk| + |rest| + |r.packet| < |r.buf| && r.writePos == Wrap(r.readPos + (|pk| + |rest|), |r.buf|)
            && Words(r.buf, r.readPos, |pk|) == pk
            && Wrap(r.readPos + |pk|, |r.buf|) < |r.buf| && Words(r.buf, Wrap(r.readPos + |pk|, |r.buf|), |rest|) == rest
  {
    hide Words, WellFormed, Wrap;
    LengthIs(r.queue[0]);
    var rest := Flat(r.queue[1..]);
    assert Flat(r.queue) == r.queue[0] + rest;
    hide Flat;
    WordsOfBoth(r.buf, r.readPos, r.queue[0], rest);
  }

  /** The reader takes exactly the packet in front, tag and all, wherever it lies. */
  lemma TakePops(r: Ring)
    requires Inv(r) && r.queue != []
    ensures r.readPos != r.writePos && Enabled(r, Take) && Next(r, Take) == Popped(r)
  {
    RoomIs(r);
    hide Flat, Words, WellFormed, Wrap;
    FrontStands(r);
    FirstWord(r);
    LengthIs(r.queue[0]);
  }

  lemma PoppedInv(r: Ring)
    requires Inv(r) && r.queue != []
    ensures Inv(Popped(r))
  {
    hide Flat, Words, WellFormed, Wrap;
    FrontStands(r);
    WrapOn(r.readPos, |r.queue[0]|, |Flat(r.queue[1..])|, |r.buf|);
    MoveOver(r.taken, r.queue);
  }

  lemma MoveOver<T>(taken: seq<T>, queue: seq<T>)
    requires queue != []
    ensures taken + queue == taken + [queue[0]] + queue[1..]
  {}

  /** The invariant is kept, and the packet in front is the one taken. */
  lemma TakeKeeps(r: Ring)
    requires Inv(r) && r.readPos != r.writePos
    ensures Enabled(r, Take)
    ensures var t := Next(r, Take); Inv(t) && r.queue != [] && t.taken == r.taken + [r.queue[0]]
  {
    RoomIs(r);
    TakePops(r);
    PoppedInv(r);
    hide Inv, Next;
  }

  lemma LengthIs(pk: seq<Quad>)
    requires WellFormed(pk)
    ensures |pk| > 0 && |pk| == Length(pk[0])
  {}

  lemma FirstWord(r: Ring)
    requires Inv(r) && r.queue != []
    ensures r.queue[0] != [] && r.buf[r.readPos] == r.queue[0][0]
  {
    var pk := r.queue[0];
    assert WellFormed(pk);
    assert Flat(r.queue)[0] == pk[0];
    assert Words(r.buf, r.readPos, |Flat(r.queue)|)[0] == r.buf[r.readPos];
  }

  lemma StepKeeps(r: Ring, s: Step)
    requires Inv(r) && Enabled(r, s)
    ensures Inv(Next(r, s))
  {
    hide Inv;
    match s
    case Begin(pk) => BeginKeeps(r, pk);
    case Store => StoreKeeps(r);
    case Commit => CommitKeeps(r);
    case Take => TakeKeeps(r);
  }

  // ---- whole runs ----

  ghost predicate Possible(r: Ring, run: seq<Step>)
    decreases |run|
  {
    run == [] || (Enabled(r, run[0]) && Possible(Next(r, run[0]), run[1..]))
  }

  ghost function After(r: Ring, run: seq<Step>): Ring
    requires Possible(r, run)
    decreases |run|
  {
    if run == [] then r else After(Next(r, run[0]), run[1..])
  }

  lemma {:induction false} RunKeeps(r: Ring, run: seq<Step>)
    requires Inv(r) && Possible(r, run)
    ensures Inv(After(r, run))
    decreases |run|
  {
    hide Inv, Enabled, Next;
    if run != [] {
      StepKeeps(r, run[0]);
      RunKeeps(Next(r, run[0]), run[1..]);
    }
  }

  /** The ring is a FIFO of packets: over every interleaving of single word stores with the reader, the
      packets read are those sent, in order; the positions are equal exactly when none is pending; and
      what is pending stands in the ring unharmed. */
  lemma RingIsFifo(buf: seq<Quad>, run: seq<Step>)
    requires |buf| > 0 && Possible(Start(buf), run)
    ensures var r := After(Start(buf), run);
            && r.given == r.taken + r.queue
            && (r.readPos == r.writePos <==> r.queue == [])
            && r.readPos < |r.buf| && |Flat(r.queue)| <= |r.buf| && Words(r.buf, r.readPos, |Flat(r.queue)|) == Flat(r.queue)
  {
    hide Enabled, Next, Possible, After;
    RunKeeps(Start(buf), run);
    RoomIs(After(Start(buf), run));
  }

  /** A whole packet written at once. */
  function Sent(r: Ring, pk: seq<Quad>): Ring
    requires r.writePos < |r.buf| && |pk| <= |r.buf|
  {
    r.(buf := Put(r.buf, r.writePos, pk), writePos := Wrap(r.writePos + |pk|, |r.buf|),
       queue := r.queue + [pk], given := r.given + [pk])
  }

  lemma SentKeeps(r: Ring, pk: seq<Quad>)
    requires Inv(r) && r.packet == [] && WellFormed(pk) && FreeRoom(r) > |pk|
    ensures r.writePos < |r.buf| && |pk| <= |r.buf| && Inv(Sent(r, pk))
  {
    hide WellFormed, Flat, Words, Put, Wrap;
    RoomIs(r);
    LengthIs(pk);
    WrapOn(r.readPos, |Flat(r.queue)|, 0, |r.buf|);
    StoredInv(r, pk);
    var t := r.(buf := Put(r.buf, r.writePos, pk), packet := pk, stored := |pk|);
    CommitKeeps(t);
    hide Inv;
    assert Next(t, Commit) == Sent(r, pk).(stored := 0);
    InvStored(r);
  }

  lemma InvStored(r: Ring)
    requires Inv(r) && r.packet == []
    ensures r.stored == 0
  {}

  /** The packet's words are in the ring. */
  lemma StoredInv(r: Ring, pk: seq<Quad>)
    requires Inv(r) && r.packet == [] && WellFormed(pk) && FreeRoom(r) > |pk| && r.writePos < |r.buf| && |pk| <= |r.buf|
    ensures Inv(r.(buf := Put(r.buf, r.writePos, pk), packet := pk, stored := |pk|))
  {
    hide WellFormed, Flat, Words, Put, Wrap;
    RoomIs(r);
    PutElsewhere(r.buf, r.readPos, |Flat(r.queue)|, pk);
    PutThere(r.buf, r.writePos, pk);
    assert pk[..|pk|] == pk;
  }

  // ---- in place ----

  class CommandRing {
    const ring: array<Quad>
    var readPos: nat
    var writePos: nat
    var packetSize: nat
    var packetStart: nat
    var packetWrite: nat
    ghost var model: Ring

    ghost predicate Valid()
      reads this, ring
    {
      && model.buf == ring[..] && model.readPos == readPos && model.writePos == writePos && model.packet == []
      && writePos < ring.Length && Inv(model)
    }

    constructor (size: nat)
      requires size > 0
      ensures Valid() && fresh(ring) && ring.Length == size && model.given == [] && model.taken == []
    {
      ring := new Quad[size];
      readPos, writePos, packetSize, packetStart, packetWrite := 0, 0, 0, 0, 0;
      new;
      model := Start(ring[..]);
    }

    /** Only the reader went on. */
    static predicate ReaderRan(a: Ring, b: Ring) {
      a.buf == b.buf && a.writePos == b.writePos && a.given == b.given && a.packet == b.packet && |b.queue| <= |a.queue|
    }

    /** One turn of the reading loop of `ExecuteTaskInThread`. */
    method TakePacket() returns (pk: seq<Quad>)
      requires Valid() && readPos != writePos
      modifies `readPos, `model
      ensures Valid() && ReaderRan(old(model), model) && |model.queue| < |old(model).queue|
      ensures |old(model).queue| > 0 && pk == old(model).queue[0] && model.taken == old(model).taken + [pk]
    {
      hide Inv, Flat;
      TakeKeeps(model);
      TakeIs(model);
      var tag := ring[readPos];
      var ringposinc := 1;
      pk := [tag];
      if tag.w0 == VSYNC {
        ringposinc := ringposinc + tag.w1;
        var datapos := Wrap(readPos + 1, ring.Length);
        var regs, rem := MemCopyWrappedSrc(ring, datapos, 15);
        pk := pk + regs + [ring[rem]];
      }
      assert pk == model.queue[0] by { PacketParts(model, pk); }
      readPos := Wrap(readPos + ringposinc, ring.Length);
      model := Next(model, Take);
    }

    static lemma TakeIs(r: Ring)
      requires Inv(r) && Enabled(r, Take)
      ensures r.queue != [] && r.readPos < |r.buf| && r.buf[r.readPos] == r.queue[0][0] && WellFormed(r.queue[0])
      ensures var t := Next(r, Take);
              t == r.(readPos := Wrap(r.readPos + |r.queue[0]|, |r.buf|), taken := t.taken, queue := r.queue[1..])
      ensures |r.queue[0]| < |r.buf|
    {
      hide Flat;
      RoomIs(r);
      FirstWord(r);
      FlatFirst(r.queue);
    }

    static lemma FlatFirst(q: seq<seq<Quad>>)
      requires q != []
      ensures |Flat(q)| >= |q[0]| && Flat(q)[..|q[0]|] == q[0]
    {}

    /** The words of the packet in front, read piece by piece. */
    static lemma PacketParts(r: Ring, pk: seq<Quad>)
      requires Inv(r) && r.queue != []
      requires r.readPos < |r.buf| && |pk| == |r.queue[0]| <= |r.buf|
      requires forall k :: 0 <= k < |pk| ==> pk[k] == r.buf[Wrap(r.readPos + k, |r.buf|)]
      ensures pk == r.queue[0]
    {
      FlatFirst(r.queue);
      hide Flat, WellFormed;
      var all := Words(r.buf, r.readPos, |Flat(r.queue)|);
      forall k | 0 <= k < |pk| ensures pk[k] == r.queue[0][k] {
        assert all[k] == Flat(r.queue)[..|r.queue[0]|][k];
      }
    }
  
    /** The GS thread takes any number of packets, as it may at any moment. */
    method MtgsMayRun()
      requires Valid()
      modifies `readPos, `model
      ensures Valid() && ReaderRan(old(model), model)
    {
      hide Inv, Next;
      var more: bool := *;
      while more && readPos != writePos
        invariant Valid() && ReaderRan(old(model), model)
        decreases |model.queue|
      {
        var _ := TakePacket();
        more := *;
      }
    }

    /** `GenericStall`: the GS thread runs until more than `size` words are free. */
    method GenericStall(size: nat)
      requires Valid() && size < ring.Length
      modifies `readPos, `model
      ensures Valid() && ReaderRan(old(model), model) && FreeRoom(model) > size
    {
      hide Inv, Flat, Next;
      while true
        invariant Valid() && ReaderRan(old(model), model)
        decreases |model.queue|
      {
        var writepos, readpos := writePos, readPos;
        var freeroom := if writepos < readpos then readpos - writepos else ring.Length - (writepos - readpos);
        if freeroom > size { break; }
        var _ := TakePacket();
        MtgsMayRun();
      }
    }

    /** Packet pk, written at the write position, is committed. */
    ghost method Commit(pk: seq<Quad>)
      requires Inv(model) && model.packet == [] && WellFormed(pk) && FreeRoom(model) > |pk| && model.readPos == readPos
      requires model.writePos < |model.buf| == ring.Length && |pk| <= ring.Length
      requires ring[..] == Put(model.buf, model.writePos, pk) && writePos == Wrap(model.writePos + |pk|, ring.Length)
      modifies `model
      ensures Valid() && model.given == old(model).given + [pk]
    {
      hide WellFormed, Flat;
      SentKeeps(model, pk);
      model := Sent(model, pk);
    }

    /** `SendSimplePacket`. */
    method SendSimplePacket(cmd: Word, data0: Word, data1: Word, data2: Word)
      requires Valid() && cmd != VSYNC && 1 < ring.Length
      modifies this, ring
      ensures Valid() && model.given == old(model).given + [[Quad(cmd, data0, data1, data2)]]
    {
      hide Inv, Flat;
      GenericStall(1);
      ghost var pk := [Quad(cmd, data0, data1, data2)];
      ring[writePos] := Quad(cmd, data0, data1, data2);
      assert ring[..] == Put(model.buf, model.writePos, pk);
      writePos := Wrap(writePos + 1, ring.Length);
      Commit(pk);
    }

    /** `PrepDataPacket`: room for the tag and `size` words, and the tag itself. */
    method PrepDataPacket(cmd: Word, size: Word)
      requires Valid() && 1 + size < ring.Length
      modifies this, ring
      ensures Preparing(cmd, size) && model.given == old(model).given
    {
      hide Inv, Flat;
      packetSize := size;
      GenericStall(1 + size);
      ring[writePos] := ring[writePos].(w0 := cmd, w1 := size);
      packetStart := writePos;
      packetWrite := Wrap(writePos + 1, ring.Length);
    }

    /** The tag of a packet is written; its other two words are what was there before. */
    ghost predicate Preparing(cmd: Word, size: Word)
      reads this, ring
    {
      && Inv(model) && model.packet == [] && FreeRoom(model) > 1 + size && |model.buf| == ring.Length && 1 + size < ring.Length
      && model.readPos == readPos && model.writePos == writePos < ring.Length
      && packetSize == size && packetStart == writePos && packetWrite == Wrap(writePos + 1, ring.Length)
      && ring[writePos].w0 == cmd && ring[writePos].w1 == size
      && ring[..] == model.buf[writePos := ring[writePos]]
    }

    /** `PostVsyncStart` as far as the ring is concerned: a 17-word packet that may lie across the end. */
    method PostVsyncStart(regset: seq<Quad>, remainder: Quad) returns (ghost pk: seq<Quad>)
      requires Valid() && |regset| == 15 && 1 + VSYNC_WORDS < ring.Length
      modifies this, ring
      ensures Valid() && model.given == old(model).given + [pk]
      ensures WellFormed(pk) && pk[0].w0 == VSYNC && pk[1..] == regset + [remainder]
    {
      hide Inv, Flat, Put, Wrap;
      PrepDataPacket(VSYNC, VSYNC_WORDS);
      PutPieces(model.buf, writePos, ring[writePos], regset, remainder);
      pk := [ring[writePos]] + regset + [remainder];
      packetWrite := MemCopyWrappedDest(regset, ring, packetWrite);
      ring[packetWrite] := remainder;
      packetWrite := Wrap(packetWrite + 1, ring.Length);
      SendDataPacket(pk);
    }

    /** `SendDataPacket`. */
    method SendDataPacket(ghost pk: seq<Quad>)
      requires Inv(model) && model.packet == [] && model.readPos == readPos && model.writePos == writePos < ring.Length
      requires |model.buf| == ring.Length && WellFormed(pk) && 1 < |pk| < FreeRoom(model) && |pk| < ring.Length
      requires ring[..] == Put(model.buf, writePos, pk) && pk[0].w1 == |pk| - 1
      requires packetStart == writePos && packetWrite == Wrap(writePos + |pk|, ring.Length)
      modifies this, ring
      ensures Valid() && model.given == old(model).given + [pk]
    {
      hide Inv, Flat, WellFormed;
      var actualSize := Distance(packetStart, packetWrite, ring.Length) - 1;
      assert actualSize == |pk| - 1;
      ring[packetStart] := ring[packetStart].(w1 := actualSize);
      assert ring[..] == Put(model.buf, writePos, pk);
      writePos := packetWrite;
      packetSize := 0;
      Commit(pk);
    }
  }
}
