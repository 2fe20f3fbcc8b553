/** The ring between the EE thread, which writes packets, and the VU1 thread, which reads them.  Both
    threads work on private positions and commit them; a packet is never split, and the writer goes
    back to the start of the ring behind a null packet.  Steps of the two threads interleave word by
    word. */
module MtvuRing {
  import opened GifTag
  import opened MtvuPackets

  /** What the EE thread is doing for the packet it sends. */
  datatype Writer =
    | Ready
    | WaitNull(p: Packet)    // WaitOnSize(1), because the packet does not fit before the end
    | PutNull(p: Packet)     // may write the null packet
    | Wrap(p: Packet)        // wrote it, has yet to commit position 0
    | WaitRoom(p: Packet)    // WaitOnSize for the packet
    | Fill(p: Packet, k: nat)

  /** The ring and both threads.  `first` and `second` are the packets committed and not yet released by
      the reader: `second` holds those behind the null packet at `nullAt`, if the writer has wrapped. */
  datatype Ring = Ring(buf: seq<Word>, slack: nat, ackWrite: nat, writePos: nat, writer: Writer,
                       ackRead: nat, seen: seq<Word>,
                       first: seq<Packet>, second: seq<Packet>, wrapped: bool, nullAt: nat,
                       given: seq<Packet>, taken: seq<Packet>)
  {
    function ReadPos(): nat { ackRead + |seen| }
    function Pending(): seq<Packet> { first + second }
  }

  /** The packets of q stand one behind the other in [from, to). */
  ghost predicate Tile(buf: seq<Word>, from: nat, q: seq<Packet>, to: nat)
    decreases |q|
  {
    if q == [] then from == to <= |buf|
    else
      var n := |Encode(q[0])|;
      && WellFormed(q[0]) && from + n <= |buf| && buf[from..from + n] == Encode(q[0])
      && Tile(buf, from + n, q[1..], to)
  }

  lemma {:induction false} TileBounds(buf: seq<Word>, from: nat, q: seq<Packet>, to: nat)
    requires Tile(buf, from, q, to)
    ensures from <= to <= |buf| && (q == [] <==> from == to)
    decreases |q|
  {
    hide Encode, WellFormed;
    if q != [] { TileBounds(buf, from + |Encode(q[0])|, q[1..], to); }
  }

  lemma {:induction false} TileFrame(buf: seq<Word>, buf2: seq<Word>, from: nat, q: seq<Packet>, to: nat)
    requires Tile(buf, from, q, to) && from <= to <= |buf| == |buf2|
    requires buf[from..to] == buf2[from..to]
    ensures Tile(buf2, from, q, to)
    decreases |q|
  {
    hide Encode, WellFormed;
    if q != [] {
      var mid := from + |Encode(q[0])|;
      TileBounds(buf, mid, q[1..], to);
      assert buf[from..mid] == buf[from..to][..mid - from] == buf2[from..mid];
      assert buf[mid..to] == buf[from..to][mid - from..] == buf2[mid..to];
      TileFrame(buf, buf2, mid, q[1..], to);
    }
  }

  lemma {:induction false} TileAppend(buf: seq<Word>, from: nat, q: seq<Packet>, to: nat, p: Packet)
    requires Tile(buf, from, q, to) && WellFormed(p)
    requires to + |Encode(p)| <= |buf| && buf[to..to + |Encode(p)|] == Encode(p)
    ensures Tile(buf, from, q + [p], to + |Encode(p)|)
    decreases |q|
  {
    hide Encode, WellFormed;
    if q != [] {
      assert (q + [p])[1..] == q[1..] + [p];
      TileAppend(buf, from + |Encode(q[0])|, q[1..], to, p);
    }
  }

  /** The test of `WaitOnSize`. */
  predicate Passes(r: Ring, size: nat) {
    r.ackRead <= r.writePos || r.ackRead > r.writePos + size + r.slack
  }

  /** The words in front of the reader, up to its next commit. */
  function Front(r: Ring): seq<Word> {
    if r.first != [] then Encode(r.first[0]) else if r.wrapped then [NULL_PACKET] else []
  }

  ghost predicate WriterInv(r: Ring)
    requires r.ackWrite < |r.buf|
  {
    match r.writer
    case Ready => r.writePos == r.ackWrite
    case WaitNull(p) => WellFormed(p) && r.writePos == r.ackWrite && r.writePos + |Encode(p)| > |r.buf| - 1
                        && |Encode(p)| < |r.buf|
    case PutNull(p) => WellFormed(p) && |Encode(p)| < |r.buf| && r.writePos == r.ackWrite > 0 && !r.wrapped
    case Wrap(p) => WellFormed(p) && |Encode(p)| < |r.buf| && r.writePos == r.ackWrite > 0 && !r.wrapped
                    && r.buf[r.ackWrite] == NULL_PACKET
    case WaitRoom(p) => WellFormed(p) && r.writePos == r.ackWrite && r.writePos + |Encode(p)| <= |r.buf| - 1
    case Fill(p, k) =>
      && WellFormed(p) && k <= |Encode(p)| && r.writePos == r.ackWrite + k
      && r.ackWrite + |Encode(p)| <= |r.buf| - 1 && (r.wrapped ==> r.ackWrite + |Encode(p)| < r.ackRead)
      && r.writePos <= |r.buf| && r.buf[r.ackWrite..r.writePos] == Encode(p)[..k]
  }

  /** The bytes between the committed positions are the pending packets, and what the reader has read is
      the beginning of the first of them. */
  ghost predicate Inv(r: Ring) {
    && r.ackWrite < |r.buf| && r.ackRead < |r.buf| && r.writePos < |r.buf|
    && Layout(r.buf, r.ackRead, r.ackWrite, r.first, r.second, r.wrapped, r.nullAt)
    && WriterInv(r)
    && Started(r.seen, Front(r))
    && r.given == r.taken + r.Pending()
  }

  ghost predicate Started(seen: seq<Word>, front: seq<Word>) { |seen| <= |front| && seen == front[..|seen|] }

  /** Where the pending packets stand. */
  ghost predicate Layout(buf: seq<Word>, ackRead: nat, ackWrite: nat, first: seq<Packet>, second: seq<Packet>,
                         wrapped: bool, nullAt: nat)
  {
    if wrapped then
      && nullAt < |buf| && Tile(buf, ackRead, first, nullAt) && buf[nullAt] == NULL_PACKET
      && Tile(buf, 0, second, ackWrite) && ackWrite < ackRead <= nullAt
    else second == [] && Tile(buf, ackRead, first, ackWrite)
  }

  function Start(slack: nat, buf: seq<Word>): Ring {
    Ring(buf, slack, 0, 0, Ready, 0, [], [], [], false, 0, [], [])
  }

  // ---- the steps of both threads ----

  datatype Step =
    | Begin(p: Packet) | CheckNull | StoreNull | CommitWrap | CheckRoom | Store | CommitWrite
    | ReadWord | CommitRead

  /** The packets that the source's assertions allow. */
  predicate Allowed(r: Ring, p: Packet) { WellFormed(p) && |Encode(p)| < |r.buf| }

  predicate Enabled(r: Ring, s: Step) {
    match s
    case Begin(p) => r.writer == Ready && Allowed(r, p)
    case CheckNull => r.writer.WaitNull? && Passes(r, 1)
    case StoreNull => r.writer.PutNull? && r.writePos < |r.buf|
    case CommitWrap => r.writer.Wrap?
    case CheckRoom => r.writer.WaitRoom? && Passes(r, |Encode(r.writer.p)|)
    case Store => r.writer.Fill? && r.writer.k < |Encode(r.writer.p)| && r.writePos < |r.buf|
    case CommitWrite => r.writer.Fill? && r.writer.k == |Encode(r.writer.p)|
    case ReadWord => r.ackRead != r.ackWrite && !Whole(r.seen) && r.ReadPos() < |r.buf|
    case CommitRead => Whole(r.seen)
  }

  function Next(r: Ring, s: Step): Ring
    requires Enabled(r, s)
  {
    match s
    case Begin(p) =>
      r.(writer := if r.writePos + |Encode(p)| > |r.buf| - 1 then WaitNull(p) else WaitRoom(p))
    case CheckNull => r.(writer := PutNull(r.writer.p))
    case StoreNull => r.(buf := r.buf[r.writePos := NULL_PACKET], writer := Wrap(r.writer.p))
    case CommitWrap =>
      r.(ackWrite := 0, writePos := 0, writer := WaitRoom(r.writer.p), wrapped := true,
         nullAt := if r.wrapped then r.nullAt else r.ackWrite)
    case CheckRoom => r.(writer := Fill(r.writer.p, 0))
    case Store =>
      r.(buf := r.buf[r.writePos := Encode(r.writer.p)[r.writer.k]], writePos := r.writePos + 1,
         writer := Fill(r.writer.p, r.writer.k + 1))
    case CommitWrite =>
      var p := r.writer.p;
      r.(ackWrite := r.writePos, writer := Ready, given := r.given + [p],
         first := if r.wrapped then r.first else r.first + [p],
         second := if r.wrapped then r.second + [p] else r.second)
    case ReadWord => r.(seen := r.seen + [r.buf[r.ReadPos()]])
    case CommitRead =>
      var d := Decode(r.seen);
      if d.Packet? then
        r.(ackRead := r.ReadPos(), seen := [], taken := r.taken + [d.packet], first := if r.first == [] then [] else r.first[1..])
      else if d.Null? then
        r.(ackRead := 0, seen := [], first := r.second, second := [], wrapped := false)
      else r.(ackRead := r.ReadPos(), seen := [])
  }

  /** The condition under which a step is harmless: the writer does not find room for the null packet
      while it is a lap ahead of the reader, and does not wrap while the committed read position is 0. */
  predicate Harmless(r: Ring, s: Step) {
    match s
    case CheckNull => !r.wrapped
    case CommitWrap => r.ackRead != 0
    case _ => true
  }

  // ---- the reader ----

  lemma FrontStands(r: Ring)
    requires Inv(r)
    ensures var n := |Front(r)|; r.ackRead + n <= |r.buf| && r.buf[r.ackRead..r.ackRead + n] == Front(r)
    ensures r.ackRead == r.ackWrite <==> r.Pending() == [] && !r.wrapped
    ensures Front(r) == [] <==> r.ackRead == r.ackWrite
  {
    hide Encode, WellFormed, WriterInv;
    if r.wrapped {
      TileBounds(r.buf, r.ackRead, r.first, r.nullAt);
    } else {
      TileBounds(r.buf, r.ackRead, r.first, r.ackWrite);
    }
  }

  /** What the reader has read is whole exactly when it is all of the front packet. */
  lemma SeenWhole(r: Ring)
    requires Inv(r)
    ensures Whole(r.seen) <==> |r.seen| == |Front(r)| > 0
    ensures Whole(r.seen) ==> Decode(r.seen) == if r.first != [] then MtvuPackets.Packet(r.first[0]) else Null
  {
    hide Encode, WriterInv, Decode, Length;
    if r.first != [] {
      RoundTrip(r.first[0], |r.seen|);
      assert r.seen == Encode(r.first[0])[..|r.seen|];
    } else {
      NullWhole(r.seen);
    }
  }

  lemma NullWhole(s: seq<Word>)
    requires s == [] || s == [NULL_PACKET]
    ensures Whole(s) <==> s != []
    ensures Whole(s) ==> Decode(s) == Null
  {}

  /** The writer's part does not depend on the reader, except for the room it has found. */
  lemma WriterSame(r: Ring, t: Ring)
    requires r.ackWrite < |r.buf| && WriterInv(r)
    requires r.buf == t.buf && r.slack == t.slack && r.ackWrite == t.ackWrite && r.writePos == t.writePos && r.writer == t.writer
    requires t.wrapped ==> r.wrapped && r.ackRead <= t.ackRead
    ensures WriterInv(t)
  {
    hide Encode, WellFormed;
  }

  lemma ReadWordKeeps(r: Ring)
    requires Inv(r) && Enabled(r, ReadWord)
    ensures Inv(Next(r, ReadWord))
  {
    hide Encode, Layout, Tile, Whole, Decode, Length, WriterInv;
    FrontStands(r);
    SeenWhole(r);
    var n, k := |Front(r)|, |r.seen|;
    var t := Next(r, ReadWord);
    assert r.buf[r.ackRead..r.ackRead + n][k] == r.buf[r.ReadPos()];
    assert t.seen == Front(r)[..k + 1];
    assert Front(t) == Front(r);
    WriterSame(r, t);
  }

  /** The reader steps over the packet in front, or over the null packet back to the start. */
  lemma LayoutAdvance(buf: seq<Word>, ackRead: nat, ackWrite: nat, first: seq<Packet>, second: seq<Packet>,
                      wrapped: bool, nullAt: nat)
    requires Layout(buf, ackRead, ackWrite, first, second, wrapped, nullAt)
    ensures first != [] ==> Layout(buf, ackRead + |Encode(first[0])|, ackWrite, first[1..], second, wrapped, nullAt)
    ensures first == [] && wrapped ==> Layout(buf, 0, ackWrite, second, [], false, nullAt)
    ensures first != [] ==> ackRead + |Encode(first[0])| <= if wrapped then nullAt else ackWrite
  {
    hide Encode, WellFormed;
    if first != [] { TileBounds(buf, ackRead + |Encode(first[0])|, first[1..], if wrapped then nullAt else ackWrite); }
  }

  lemma NextCommitRead(r: Ring)
    requires Enabled(r, CommitRead)
    requires Decode(r.seen) == if r.first != [] then MtvuPackets.Packet(r.first[0]) else Null
    ensures Next(r, CommitRead) ==
            if r.first != [] then r.(ackRead := r.ReadPos(), seen := [], taken := r.taken + [r.first[0]], first := r.first[1..])
            else r.(ackRead := 0, seen := [], first := r.second, second := [], wrapped := false)
    ensures |r.first| > 0 ==> |Front(r)| == |Encode(r.first[0])|
  {
    hide Encode, Decode, Whole;
  }

  lemma CommitReadKeeps(r: Ring)
    requires Inv(r) && Enabled(r, CommitRead)
    ensures Inv(Next(r, CommitRead))
  {
    hide Encode, Whole, Decode, Length, Layout, Tile, WriterInv, Next, Front, WellFormed;
    assert Whole(r.seen);
    FrontStands(r);
    SeenWhole(r);
    LayoutAdvance(r.buf, r.ackRead, r.ackWrite, r.first, r.second, r.wrapped, r.nullAt);
    LayoutBounds(r.buf, r.ackRead, r.ackWrite, r.first, r.second, r.wrapped, r.nullAt);
    NextCommitRead(r);
    var t := Next(r, CommitRead);
    WriterSame(r, t);
    if r.first != [] {
      assert r.Pending() == [r.first[0]] + t.Pending();
      assert r.taken + ([r.first[0]] + t.Pending()) == t.taken + t.Pending();
    } else {
      assert r.Pending() == t.Pending();
    }
  }

  lemma LayoutBounds(buf: seq<Word>, ackRead: nat, ackWrite: nat, first: seq<Packet>, second: seq<Packet>,
                     wrapped: bool, nullAt: nat)
    requires Layout(buf, ackRead, ackWrite, first, second, wrapped, nullAt)
    ensures wrapped ==> nullAt < |buf| && ackWrite < ackRead
    ensures !wrapped ==> second == [] && ackRead <= ackWrite
  {
    if !wrapped { TileBounds(buf, ackRead, first, ackWrite); }
  }

  // ---- the writer ----

  /** A word stored above what is committed, and below the reader once the writer has wrapped, leaves
      every pending packet as it is. */
  lemma LayoutFrame(buf: seq<Word>, ackRead: nat, ackWrite: nat, first: seq<Packet>, second: seq<Packet>,
                    wrapped: bool, nullAt: nat,
                    at: nat, w: Word)
    requires Layout(buf, ackRead, ackWrite, first, second, wrapped, nullAt)
    requires ackWrite <= at < |buf| && (wrapped ==> at < ackRead)
    ensures Layout(buf[at := w], ackRead, ackWrite, first, second, wrapped, nullAt)
  {
    hide Encode, WellFormed;
    var buf2 := buf[at := w];
    if wrapped {
      TileBounds(buf, ackRead, first, nullAt);
      TileBounds(buf, 0, second, ackWrite);
      TileFrame(buf, buf2, ackRead, first, nullAt);
      TileFrame(buf, buf2, 0, second, ackWrite);
    } else {
      TileBounds(buf, ackRead, first, ackWrite);
      TileFrame(buf, buf2, ackRead, first, ackWrite);
    }
  }

  /** With a packet of at most two words more than the slack, waiting for room for the null packet ends
      only when the reader is on the same lap: on the lap before, the slack keeps the writer back. */
  lemma CheckNullOnSameLap(r: Ring)
    requires Inv(r) && Enabled(r, CheckNull) && |Encode(r.writer.p)| <= r.slack + 2
    ensures Harmless(r, CheckNull)
  {
    hide Encode, Tile;
  }

  lemma StoreKeeps(r: Ring)
    requires Inv(r) && Enabled(r, Store)
    ensures Inv(Next(r, Store))
  {
    hide Encode, Tile, Layout, Front, WellFormed, Whole;
    var w := Encode(r.writer.p)[r.writer.k];
    LayoutFrame(r.buf, r.ackRead, r.ackWrite, r.first, r.second, r.wrapped, r.nullAt, r.writePos, w);
    var t := Next(r, Store);
    assert t.buf[r.ackWrite..t.writePos] == r.buf[r.ackWrite..r.writePos] + [w];
    assert t.buf[r.ackWrite..t.writePos] == Encode(r.writer.p)[..r.writer.k + 1];
    FrontSame(r, t);
  }

  lemma FrontSame(r: Ring, t: Ring)
    requires r.first == t.first && r.wrapped == t.wrapped
    ensures Front(r) == Front(t)
  {}

  lemma StoreNullKeeps(r: Ring)
    requires Inv(r) && Enabled(r, StoreNull)
    ensures Inv(Next(r, StoreNull))
  {
    hide Encode, Tile, Layout, Front, WellFormed, Whole;
    LayoutFrame(r.buf, r.ackRead, r.ackWrite, r.first, r.second, r.wrapped, r.nullAt, r.writePos, NULL_PACKET);
    FrontSame(r, Next(r, StoreNull));
  }

  lemma CommitWrapKeeps(r: Ring)
    requires Inv(r) && Enabled(r, CommitWrap) && r.ackRead != 0
    ensures Inv(Next(r, CommitWrap))
  {
    hide Encode, WellFormed, Whole;
    TileBounds(r.buf, r.ackRead, r.first, r.ackWrite);
  }

  lemma LayoutCommit(buf: seq<Word>, ackRead: nat, ackWrite: nat, first: seq<Packet>, second: seq<Packet>,
                     wrapped: bool, nullAt: nat, p: Packet)
    requires Layout(buf, ackRead, ackWrite, first, second, wrapped, nullAt) && WellFormed(p)
    requires ackWrite + |Encode(p)| <= |buf| && buf[ackWrite..ackWrite + |Encode(p)|] == Encode(p)
    requires wrapped ==> ackWrite + |Encode(p)| < ackRead
    ensures Layout(buf, ackRead, ackWrite + |Encode(p)|, if wrapped then first else first + [p],
                   if wrapped then second + [p] else second, wrapped, nullAt)
  {
    hide Encode, WellFormed;
    if wrapped { TileAppend(buf, 0, second, ackWrite, p); } else { TileAppend(buf, ackRead, first, ackWrite, p); }
  }

  lemma CommitWriteKeeps(r: Ring)
    requires Inv(r) && Enabled(r, CommitWrite)
    ensures Inv(Next(r, CommitWrite))
  {
    hide Encode, Tile, Layout, WellFormed, Whole;
    var p := r.writer.p;
    var t := Next(r, CommitWrite);
    assert Encode(p)[..|Encode(p)|] == Encode(p);
    LayoutCommit(r.buf, r.ackRead, r.ackWrite, r.first, r.second, r.wrapped, r.nullAt, p);
    LayoutBounds(r.buf, r.ackRead, r.ackWrite, r.first, r.second, r.wrapped, r.nullAt);
    assert r.taken + r.Pending() + [p] == r.taken + t.Pending();
  }

  lemma ChecksKeep(r: Ring, s: Step)
    requires Inv(r) && Enabled(r, s) && Harmless(r, s) && (s.Begin? || s.CheckNull? || s.CheckRoom?)
    ensures Inv(Next(r, s))
  {
    hide Encode, Tile, Layout, Whole, WellFormed;
    LayoutBounds(r.buf, r.ackRead, r.ackWrite, r.first, r.second, r.wrapped, r.nullAt);
    FrontSame(r, Next(r, s));
  }

  /** Every harmless step of either thread keeps the invariant. */
  lemma StepKeeps(r: Ring, s: Step)
    requires Inv(r) && Enabled(r, s) && Harmless(r, s)
    ensures Inv(Next(r, s))
  {
    hide Inv, Next, Enabled;
    match s
    case ReadWord => ReadWordKeeps(r);
    case CommitRead => CommitReadKeeps(r);
    case StoreNull => StoreNullKeeps(r);
    case CommitWrap => CommitWrapKeeps(r);
    case Store => StoreKeeps(r);
    case CommitWrite => CommitWriteKeeps(r);
    case _ => ChecksKeep(r, s);
  }

  // ---- whole runs ----

  ghost predicate Possible(r: Ring, run: seq<Step>)
    decreases |run|
  {
    run == [] || (Enabled(r, run[0]) && Possible(Next(r, run[0]), run[1..]))
  }

  ghost function After(r: Ring, run: seq<Step>): Ring
    requires Possible(r, run)
    decreases |run|
  {
    if run == [] then r else After(Next(r, run[0]), run[1..])
  }

  /** Every step of the run is harmless where it is taken. */
  ghost predicate Sound(r: Ring, run: seq<Step>)
    requires Possible(r, run)
    decreases |run|
  {
    run == [] || (Harmless(r, run[0]) && Sound(Next(r, run[0]), run[1..]))
  }

  lemma {:induction false} RunKeeps(r: Ring, run: seq<Step>)
    requires Inv(r) && Possible(r, run) && Sound(r, run)
    ensures Inv(After(r, run))
    decreases |run|
  {
    hide Inv, Enabled, Harmless, Next;
    if run != [] {
      StepKeeps(r, run[0]);
      RunKeeps(Next(r, run[0]), run[1..]);
    }
  }

  lemma StartInv(slack: nat, buf: seq<Word>)
    requires |buf| > 0
    ensures Inv(Start(slack, buf))
  {}

  /** The ring is a FIFO: over every interleaving of harmless steps, the packets read are exactly those
      written, in order, and the committed positions are equal exactly when none is pending. */
  lemma FifoRefinement(slack: nat, buf: seq<Word>, run: seq<Step>)
    requires |buf| > 0 && Possible(Start(slack, buf), run) && Sound(Start(slack, buf), run)
    ensures var r := After(Start(slack, buf), run);
            && r.given == r.taken + r.Pending()
            && (r.ackRead == r.ackWrite <==> r.Pending() == [] && !r.wrapped)
  {
    hide Inv, Enabled, Harmless, Next, After, Possible, Sound;
    StartInv(slack, buf);
    RunKeeps(Start(slack, buf), run);
    FrontStands(After(Start(slack, buf), run));
    InvFifo(After(Start(slack, buf), run));
  }

  lemma InvFifo(r: Ring)
    requires Inv(r)
    ensures r.given == r.taken + r.Pending()
  {
    hide Layout, WriterInv, Encode;
  }

  /** No packet of the run is longer than n words. */
  predicate NoLonger(run: seq<Step>, n: nat) {
    forall i :: 0 <= i < |run| && run[i].Begin? ==> |Encode(run[i].p)| <= n
  }

  /** The writer wraps only behind the reader's first commit. */
  ghost predicate WrapsLate(r: Ring, run: seq<Step>)
    requires Possible(r, run)
    decreases |run|
  {
    run == [] || ((run[0] == CommitWrap ==> r.ackRead != 0) && WrapsLate(Next(r, run[0]), run[1..]))
  }

  /** While no packet is longer than the slack and two words, only the second kind of step can do harm. */
  lemma {:induction false} ShortPacketsSound(r: Ring, run: seq<Step>)
    requires Inv(r) && (r.writer.WaitNull? ==> |Encode(r.writer.p)| <= r.slack + 2)
    requires Possible(r, run) && NoLonger(run, r.slack + 2)
    ensures Sound(r, run) <==> WrapsLate(r, run)
    decreases |run|
  {
    hide Inv, Encode;
    if run != [] {
      if run[0].CheckNull? { CheckNullOnSameLap(r); }
      assert forall i :: 0 <= i < |run[1..]| ==> run[1..][i] == run[i + 1];
      assert NoLonger(run[1..], r.slack + 2);
      if Next(r, run[0]).writer.WaitNull? { WriterWaits(r, run[0]); }
      if Harmless(r, run[0]) {
        StepKeeps(r, run[0]);
        ShortPacketsSound(Next(r, run[0]), run[1..]);
      }
    }
  }

  lemma WriterWaits(r: Ring, s: Step)
    requires Enabled(r, s) && Next(r, s).writer.WaitNull?
    ensures (r.writer.WaitNull? && r.writer == Next(r, s).writer) || (s.Begin? && Next(r, s).writer.p == s.p)
  {
    hide Encode, Decode, Whole;
  }

  // ---- why the two conditions are needed ----

  /** Wrapping keeps the ring sound exactly if the committed read position is not 0.  If it is 0, the
      ring looks empty although packets are pending, and the reader stops. */
  lemma WrapNeedsReader(r: Ring)
    requires Inv(r) && Enabled(r, CommitWrap)
    ensures Inv(Next(r, CommitWrap)) <==> r.ackRead != 0
    ensures r.ackRead == 0 ==>
              var t := Next(r, CommitWrap);
              t.ackRead == t.ackWrite && t.Pending() != [] && !Enabled(t, ReadWord) && Passes(t, |Encode(t.writer.p)|)
  {
    FrontStands(r);
    hide Encode, Tile, WellFormed, Whole, Front;
    if r.ackRead != 0 { CommitWrapKeeps(r); }
  }

  /** The reader is on one lap, the writer has lapped it once and wraps again: `second` is what was
      committed in between. */
  ghost predicate Lapped(r: Ring) {
    && r.wrapped && r.nullAt < |r.buf| && Tile(r.buf, r.ackRead, r.first, r.nullAt) && r.buf[r.nullAt] == NULL_PACKET
    && r.second != [] && r.ackWrite == 0 < r.ackRead <= r.nullAt && Started(r.seen, Front(r))
  }

  lemma LappedReads(r: Ring)
    requires Lapped(r) && Enabled(r, ReadWord)
    ensures Lapped(Next(r, ReadWord))
  {
    hide Encode, WellFormed, Tile, Decode, Length, Whole;
    LappedFront(r);
    var t := Next(r, ReadWord);
    assert r.buf[r.ackRead..r.ackRead + |Front(r)|][|r.seen|] == r.buf[r.ReadPos()];
    assert t.seen == Front(r)[..|r.seen| + 1];
    FrontSame(r, t);
  }

  lemma LappedCommits(r: Ring)
    requires Lapped(r) && Enabled(r, CommitRead)
    ensures var t := Next(r, CommitRead); Lapped(t) || (t.ackRead == t.ackWrite && t.Pending() == r.second)
  {
    hide Encode, WellFormed, Tile, Decode, Length, Whole, Next;
    assert Whole(r.seen);
    LappedFront(r);
    NextCommitRead(r);
    if r.first != [] { FirstStep(r); }
  }

  /** Then the reader can only go on until the ring looks empty, with all of `second` unread. */
  lemma LappedLoses(r: Ring, s: Step)
    requires Lapped(r) && (s == ReadWord || s == CommitRead)
    ensures Enabled(r, ReadWord) || Enabled(r, CommitRead)
    ensures Enabled(r, s) ==> var t := Next(r, s); Lapped(t) || (t.ackRead == t.ackWrite && t.Pending() == r.second)
  {
    LappedFront(r);
    hide Lapped, Encode, WellFormed, Tile, Decode, Length, Whole, Next;
    if Enabled(r, s) {
      if s == ReadWord { LappedReads(r); } else { LappedCommits(r); }
    }
  }

  lemma FirstStep(r: Ring)
    requires Lapped(r) && r.first != []
    ensures Tile(r.buf, r.ackRead + |Encode(r.first[0])|, r.first[1..], r.nullAt)
    ensures r.ackRead + |Encode(r.first[0])| <= r.nullAt
  {
    hide Encode, WellFormed, Front;
    TileBounds(r.buf, r.ackRead + |Encode(r.first[0])|, r.first[1..], r.nullAt);
  }

  lemma LappedFront(r: Ring)
    requires Lapped(r)
    ensures var n := |Front(r)|; n > 0 && r.ackRead + n <= |r.buf| && r.buf[r.ackRead..r.ackRead + n] == Front(r)
    ensures Whole(r.seen) <==> |r.seen| == |Front(r)|
    ensures Whole(r.seen) ==> Decode(r.seen) == if r.first != [] then MtvuPackets.Packet(r.first[0]) else Null
  {
    hide Encode, Decode, Length;
    TileBounds(r.buf, r.ackRead, r.first, r.nullAt);
    if r.first != [] {
      RoundTrip(r.first[0], |r.seen|);
    } else {
      NullWhole(r.seen);
    }
  }

  /** The writer is a lap ahead of the reader, and yet its wait for the null packet is over. */
  ghost predicate Laps(r: Ring, p: Packet) { r.writer == WaitNull(p) && Enabled(r, CheckNull) && !Harmless(r,
                       CheckNull) }

  /** Then it goes on to lap the reader. */
  lemma LapsIntoLapped(r: Ring, p: Packet)
    requires Inv(r) && Laps(r, p)
    ensures Enabled(Next(r, CheckNull), StoreNull)
    ensures var v := Next(Next(r, CheckNull), StoreNull); Enabled(v, CommitWrap) && Lapped(Next(v, CommitWrap))
  {
    hide Encode, WellFormed, Tile;
    LayoutFrame(r.buf, r.ackRead, r.ackWrite, r.first, r.second, r.wrapped, r.nullAt, r.writePos, NULL_PACKET);
    TileBounds(r.buf, 0, r.second, r.ackWrite);
  }

  // ---- runs, put together from parts ----

  /** A sound run from t to u. */
  ghost predicate Goes(t: Ring, run: seq<Step>, u: Ring) {
    Possible(t, run) && Sound(t, run) && After(t, run) == u
  }

  lemma {:induction false} Join(t: Ring, run: seq<Step>, u: Ring, more: seq<Step>, v: Ring)
    requires Goes(t, run, u) && Goes(u, more, v)
    ensures Goes(t, run + more, v)
    decreases |run|
  {
    hide Enabled, Harmless, Next;
    if run != [] {
      assert (run + more)[1..] == run[1..] + more;
      Join(Next(t, run[0]), run[1..], u, more, v);
    } else {
      assert run + more == more;
    }
  }

  lemma Stay(t: Ring)
    ensures Goes(t, [], t)
  {}

  lemma Go(t: Ring, run: seq<Step>, u: Ring, s: Step)
    requires Goes(t, run, u) && Enabled(u, s) && Harmless(u, s)
    ensures Goes(t, run + [s], Next(u, s))
  {
    hide Enabled, Harmless, Next;
    assert [s][1..] == [];
    Stay(Next(u, s));
    Join(t, run, u, [s], Next(u, s));
  }

  lemma GoesKeeps(t: Ring, run: seq<Step>, u: Ring)
    requires Inv(t) && Goes(t, run, u)
    ensures Inv(u)
  {
    hide Inv, Possible, Sound, After;
    RunKeeps(t, run);
  }

  /** Both threads are between packets. */
  ghost predicate At(t: Ring, size: nat, slack: nat, wrapped: bool, read: nat, at: nat) {
    && Inv(t) && t.writer == Ready && t.seen == [] && |t.buf| == size && t.slack == slack
    && t.wrapped == wrapped && t.ackRead == read && t.ackWrite == t.writePos == at
  }

  lemma {:induction false} StoreAll(t: Ring, n: nat) returns (run: seq<Step>, u: Ring)
    requires t.writer.Fill? && t.writer.k + n == |Encode(t.writer.p)| && t.writePos + n < |t.buf|
    ensures Goes(t, run, u) && |u.buf| == |t.buf|
    ensures u == t.(buf := u.buf, writePos := t.writePos + n, writer := Fill(t.writer.p, t.writer.k + n))
    decreases n
  {
    hide Encode, Goes;
    run, u := [], t;
    Stay(t);
    if n > 0 {
      Go(t, [], t, Store);
      assert [] + [Store] == [Store];
      var more;
      more, u := StoreAll(Next(t, Store), n - 1);
      Join(t, [Store], Next(t, Store), more, u);
      run := [Store] + more;
    }
  }

  /** The packet that waits for room is sent. */
  lemma Deliver(t: Ring) returns (run: seq<Step>, u: Ring)
    requires Inv(t) && t.writer.WaitRoom? && t.seen == [] && Passes(t, |Encode(t.writer.p)|)
    ensures Goes(t, run, u)
    ensures At(u, |t.buf|, t.slack, t.wrapped, t.ackRead, t.ackWrite + |Encode(t.writer.p)|)
  {
    hide Encode, Goes, Layout, Tile, WellFormed;
    Stay(t);
    Go(t, [], t, CheckRoom);
    var v := Next(t, CheckRoom);
    run, u := StoreAll(v, |Encode(t.writer.p)|);
    Join(t, [] + [CheckRoom], v, run, u);
    run := [] + [CheckRoom] + run;
    Go(t, run, u, CommitWrite);
    run, u := run + [CommitWrite], Next(u, CommitWrite);
    hide Inv;
    GoesKeeps(t, run, u);
  }

  lemma SendOne(t: Ring, p: Packet) returns (run: seq<Step>, u: Ring)
    requires At(t, |t.buf|, t.slack, t.wrapped, t.ackRead, t.ackWrite) && WellFormed(p) && t.ackWrite + |Encode(p)| < |t.buf|
    requires t.wrapped ==> t.ackRead > t.ackWrite + |Encode(p)| + t.slack
    ensures Goes(t, run, u)
    ensures At(u, |t.buf|, t.slack, t.wrapped, t.ackRead, t.ackWrite + |Encode(p)|)
  {
    hide Encode, Goes, Tile, WellFormed;
    LayoutBounds(t.buf, t.ackRead, t.ackWrite, t.first, t.second, t.wrapped, t.nullAt);
    hide Layout;
    Stay(t);
    Go(t, [], t, Begin(p));
    var v := Next(t, Begin(p));
    GoesKeeps(t, [] + [Begin(p)], v);
    hide Inv;
    run, u := Deliver(v);
    Join(t, [] + [Begin(p)], v, run, u);
    run := [] + [Begin(p)] + run;
  }

  /** The first packet of a lap, sent behind the reader. */
  lemma SendWrapped(t: Ring, p: Packet) returns (run: seq<Step>, u: Ring)
    requires At(t, |t.buf|, t.slack, false, t.ackRead, t.ackWrite) && WellFormed(p) && |Encode(p)| < |t.buf|
    requires t.ackWrite + |Encode(p)| >= |t.buf| && t.ackRead > |Encode(p)| + t.slack
    ensures Goes(t, run, u)
    ensures At(u, |t.buf|, t.slack, true, t.ackRead, |Encode(p)|)
  {
    hide Encode, Goes, Tile, WellFormed;
    LayoutBounds(t.buf, t.ackRead, t.ackWrite, t.first, t.second, t.wrapped, t.nullAt);
    hide Layout;
    run := ToWrap(t, p);
    var v := WrapState(t, p);
    Go(t, run, v, CommitWrap);
    run := run + [CommitWrap];
    var w := Next(v, CommitWrap);
    GoesKeeps(t, run, w);
    hide Inv;
    var more;
    more, u := Deliver(w);
    Join(t, run, w, more, u);
    run := run + more;
  }

  /** The writer has written the null packet for p. */
  ghost function WrapState(t: Ring, p: Packet): Ring
    requires t.writePos < |t.buf|
  {
    t.(buf := t.buf[t.writePos := NULL_PACKET], writer := Wrap(p))
  }

  lemma ToWrap(t: Ring, p: Packet) returns (run: seq<Step>)
    requires t.writer == Ready && Allowed(t, p) && t.writePos < |t.buf| <= t.writePos + |Encode(p)|
    requires t.ackRead <= t.writePos && !t.wrapped
    ensures Goes(t, run, WrapState(t, p))
  {
    hide Encode, Goes, WellFormed;
    Stay(t);
    Go(t, [], t, Begin(p));
    var v := Next(t, Begin(p));
    Go(t, [] + [Begin(p)], v, CheckNull);
    v := Next(v, CheckNull);
    Go(t, [] + [Begin(p)] + [CheckNull], v, StoreNull);
    run := [] + [Begin(p)] + [CheckNull] + [StoreNull];
  }

  /** A packet of 3, 4 or 5 words. */
  function Small(n: nat): (p: Packet)
    requires 3 <= n <= 5
    ensures WellFormed(p) && |Encode(p)| == n
  {
    if n == 3 then WriteData(0, 0, []) else if n == 4 then Execute(0, 0, 0) else WriteCol([0, 0, 0, 0])
  }

  /** The size of the first packet when n words are sent in small ones. */
  function Head(n: nat): (k: nat)
    requires n >= 3
    ensures 3 <= k <= 5 && k <= n && (n == k || n >= k + 3)
  {
    if n <= 5 then n else 3
  }

  lemma {:induction false} SendWords(t: Ring, n: nat) returns (run: seq<Step>, u: Ring)
    requires At(t, |t.buf|, t.slack, t.wrapped, t.ackRead, t.ackWrite) && (n == 0 || n >= 3)
    requires t.ackWrite + n < |t.buf| && (t.wrapped ==> t.ackRead > t.ackWrite + n + t.slack)
    ensures Goes(t, run, u)
    ensures At(u, |t.buf|, t.slack, t.wrapped, t.ackRead, t.ackWrite + n)
    decreases n
  {
    hide Encode, Goes, Inv, WellFormed, Small, Head;
    run, u := [], t;
    Stay(t);
    if n > 0 {
      var k := Head(n);
      run, u := SendOne(t, Small(k));
      var v, more := u, [];
      more, u := SendWords(v, n - k);
      Join(t, run, v, more, u);
      run := run + more;
    }
  }

  lemma {:induction false} ReadOn(t: Ring) returns (run: seq<Step>, u: Ring)
    requires Inv(t) && t.first != []
    ensures Goes(t, run, u) && u == t.(seen := Encode(t.first[0]))
    decreases |Front(t)| - |t.seen|
  {
    hide Encode, Goes, WriterInv, Layout, Tile, Whole, Decode, Length;
    run, u := [], t;
    Stay(t);
    FrontStands(t);
    SeenWhole(t);
    assert Encode(t.first[0])[..|Encode(t.first[0])|] == Encode(t.first[0]);
    if |t.seen| < |Front(t)| {
      Go(t, [], t, ReadWord);
      assert [] + [ReadWord] == [ReadWord];
      var v := Next(t, ReadWord);
      GoesKeeps(t, [ReadWord], v);
      var more;
      more, u := ReadOn(v);
      Join(t, [ReadWord], v, more, u);
      run := [ReadWord] + more;
    }
  }

  lemma TakeOne(t: Ring) returns (run: seq<Step>, u: Ring)
    requires At(t, |t.buf|, t.slack, false, t.ackRead, t.ackWrite) && t.first != []
    ensures Goes(t, run, u) && At(u, |t.buf|, t.slack, false, u.ackRead, t.ackWrite) && u.first == t.first[1..]
  {
    hide Encode, Goes, WriterInv, Layout, Tile, Whole, Decode, Length, Next;
    run, u := ReadOn(t);
    var v := u;
    GoesKeeps(t, run, v);
    SeenWhole(v);
    Go(t, run, v, CommitRead);
    NextCommitRead(v);
    run, u := run + [CommitRead], Next(v, CommitRead);
    GoesKeeps(t, run, u);
  }

  /** The reader takes all there is. */
  lemma {:induction false} TakeAll(t: Ring) returns (run: seq<Step>, u: Ring)
    requires At(t, |t.buf|, t.slack, false, t.ackRead, t.ackWrite)
    ensures Goes(t, run, u) && At(u, |t.buf|, t.slack, false, t.ackWrite, t.ackWrite)
    decreases |t.first|
  {
    hide Encode, Goes, WriterInv, Layout, Tile, Whole;
    run, u := [], t;
    Stay(t);
    FrontStands(t);
    if t.first != [] {
      run, u := TakeOne(t);
      var v, more := u, [];
      more, u := TakeAll(v);
      Join(t, run, v, more, u);
      run := run + more;
    }
  }

  lemma StartsAt(slack: nat, buf: seq<Word>)
    requires |buf| > 0
    ensures At(Start(slack, buf), |buf|, slack, false, 0, 0)
  {
    StartInv(slack, buf);
  }

  lemma {:induction false} SendMany(t: Ring, p: Packet) returns (run: seq<Step>, u: Ring)
    requires At(t, |t.buf|, t.slack, false, 0, t.ackWrite) && WellFormed(p) && |Encode(p)| < |t.buf|
    ensures Goes(t, run, u) && At(u, |t.buf|, t.slack, false, 0, u.ackWrite) && u.ackWrite + |Encode(p)| >= |t.buf|
    decreases |t.buf| - t.ackWrite
  {
    hide Encode, Goes, WellFormed, Inv;
    run, u := [], t;
    Stay(t);
    if t.ackWrite + |Encode(p)| < |t.buf| {
      run, u := SendOne(t, p);
      var v, more := u, [];
      EncodeSome(p);
      more, u := SendMany(v, p);
      Join(t, run, v, more, u);
      run := run + more;
    }
  }

  lemma EncodeSome(p: Packet)
    ensures |Encode(p)| > 0
  {}

  /** The loss is reachable in every ring and with every packet: the writer sends packets until it has
      to wrap before the reader has committed its first read. */
  lemma LossIsReachable(slack: nat, buf: seq<Word>, p: Packet) returns (run: seq<Step>)
    requires WellFormed(p) && |Encode(p)| < |buf|
    ensures Possible(Start(slack, buf), run) && Sound(Start(slack, buf), run)
    ensures var r := After(Start(slack, buf), run); Enabled(r, CommitWrap) && r.ackRead == 0
  {
    hide Encode, Possible, Sound, After, Inv, WellFormed;
    var t := Start(slack, buf);
    StartsAt(slack, buf);
    var u, more;
    run, u := SendMany(t, p);
    InvWrite(u);
    more := ToWrap(u, p);
    Join(t, run, u, more, WrapState(u, p));
    run := run + more;
  }

  lemma InvWrite(r: Ring)
    requires Inv(r)
    ensures r.writePos < |r.buf|
  {}

  /** A packet longer than the slack and two words laps the reader in some run: the first lap is filled
      to the end and read, and the second one up to as far behind the reader as the slack allows. */
  lemma LapIsReachable(slack: nat, buf: seq<Word>, p: Packet) returns (run: seq<Step>)
    requires |buf| >= slack + 6 && WellFormed(p) && slack + 2 < |Encode(p)| < |buf|
    ensures Possible(Start(slack, buf), run) && Sound(Start(slack, buf), run) && Laps(After(Start(slack, buf), run), p)
  {
    hide Encode, Possible, Sound, After, Inv, WellFormed, Small, Head;
    var t, n := Start(slack, buf), |buf| - 3 - slack;
    StartsAt(slack, buf);
    var u, v, more;
    run, u := SendWords(t, |buf| - 1);
    more, v := TakeAll(u);
    Join(t, run, u, more, v);
    run := run + more;
    more, u := SendWrapped(v, Small(Head(n)));
    Join(t, run, v, more, u);
    run := run + more;
    more, v := SendWords(u, n - Head(n));
    Join(t, run, u, more, v);
    run := run + more;
    Go(t, run, v, Begin(p));
    run := run + [Begin(p)];
  }

  /** The writer can lap the reader with a packet exactly if it exceeds the slack by more than two words. */
  lemma SlackIsShort(slack: nat, buf: seq<Word>, p: Packet)
    requires |buf| >= slack + 6 && WellFormed(p) && |Encode(p)| < |buf|
    ensures |Encode(p)| > slack + 2 <==>
              exists run :: Possible(Start(slack, buf), run) && Sound(Start(slack, buf), run) && Laps(After(Start(slack, buf), run), p)
  {
    hide Encode, Possible, Sound, After, Inv, WellFormed;
    var t := Start(slack, buf);
    StartInv(slack, buf);
    if |Encode(p)| > slack + 2 { var _ := LapIsReachable(slack, buf, p); }
    forall run | Possible(t, run) && Sound(t, run) && Laps(After(t, run), p)
      ensures |Encode(p)| > slack + 2
    {
      RunKeeps(t, run);
      SameSlack(t, run);
      if |Encode(p)| <= slack + 2 { CheckNullOnSameLap(After(t, run)); }
    }
  }

  lemma {:induction false} SameSlack(r: Ring, run: seq<Step>)
    requires Possible(r, run)
    ensures After(r, run).slack == r.slack
    decreases |run|
  {
    hide Enabled, Encode, Decode, Whole;
    if run != [] { SameSlack(Next(r, run[0]), run[1..]); }
  }

  /** The slack and the size of the ring in the source, in words. */
  const SLACK := 4096
  const BUFFER_SIZE := 0x40_0000

  /** A whole upload of VU1's micro or data memory is long enough to lap the reader in some run. */
  lemma UploadLaps(buf: seq<Word>, p: Packet) returns (run: seq<Step>)
    requires |buf| == BUFFER_SIZE && (p.WriteMicro? || p.WriteData?) && p.size == 0x4000 && WellFormed(p)
    ensures |Encode(p)| == SLACK + 3
    ensures Possible(Start(SLACK, buf), run) && Sound(Start(SLACK, buf), run) && Laps(After(Start(SLACK, buf), run), p)
  {
    hide Possible, Sound, After, Laps;
    run := LapIsReachable(SLACK, buf, p);
  }
}
