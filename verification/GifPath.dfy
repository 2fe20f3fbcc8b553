/** The packet buffer of one GIF path: a linear buffer that is realigned to its front, filled by the
    EE and read by the MTGS thread, which is told only offsets and sizes. */
module GifPath {
  import opened GifTag
  import opened GifParser

  /** What the MTGS queue holds for a path: a packet in the buffer, or a blank one that only counts. */
  datatype Block = Block(offset: nat, size: nat) | Blank(size: nat)

  /** Quadwords the MTGS thread has yet to read, blanks included. */
  function Owed(q: seq<Block>): nat {
    if q == [] then 0 else q[0].size + Owed(q[1..])
  }

  /** All packets lie below n. */
  ghost predicate Within(q: seq<Block>, n: nat) {
    forall k :: 0 <= k < |q| ==> q[k].Block? ==> q[k].offset + q[k].size <= n
  }

  /** The quadwords a list of packets stands for, in a buffer b. */
  ghost function Bytes(b: seq<Quad>, q: seq<Block>): seq<Quad>
    requires Within(q, |b|)
  {
    if q == [] then []
    else (if q[0].Block? then b[q[0].offset..q[0].offset + q[0].size] else []) + Bytes(b, q[1..])
  }

  lemma NoBytes(b: seq<Quad>)
    ensures Within([], |b|) && Bytes(b, []) == []
  {}

  /** The packets of q lie one behind the other and cover [from, to). */
  ghost predicate Tiles(q: seq<Block>, from: nat, to: nat) {
    if q == [] then from == to
    else q[0].Block? && q[0].offset == from && q[0].size > 0 && Tiles(q[1..], from + q[0].size, to)
  }

  /** The rest of a lap that was left at `to`: packets covering [from, to), then a blank packet
      that makes the lap at least `limit` long. */
  ghost predicate Lap(q: seq<Block>, from: nat, to: nat, limit: nat) {
    if q == [] then from == to && to >= limit
    else if q[0].Blank? then |q| == 1 && from == to < limit && q[0].size == limit - to
    else q[0].offset == from && q[0].size > 0 && Lap(q[1..], from + q[0].size, to, limit)
  }

  function Max(a: int, b: int): int { if a > b then a else b }

  lemma {:induction false} TilesOwe(q: seq<Block>, from: nat, to: nat)
    requires Tiles(q, from, to)
    ensures from <= to && Owed(q) == to - from
    ensures Within(q, to)
    decreases |q|
  {
    if q != [] { TilesOwe(q[1..], from + q[0].size, to); }
  }

  lemma {:induction false} LapOwes(q: seq<Block>, from: nat, to: nat, limit: nat)
    requires Lap(q, from, to, limit)
    ensures from <= to && Owed(q) == Max(limit, to) - from
    ensures Within(q, to)
    decreases |q|
  {
    if q != [] && q[0].Block? { LapOwes(q[1..], from + q[0].size, to, limit); }
  }

  lemma {:induction false} TileBytes(b: seq<Quad>, q: seq<Block>, from: nat, to: nat)
    requires Tiles(q, from, to) && to <= |b|
    requires Within(q, |b|)
    ensures from <= to && Bytes(b, q) == b[from..to]
    decreases |q|
  {
    TilesOwe(q, from, to);
    if q != [] {
      TilesOwe(q[1..], from + q[0].size, to);
      TileBytes(b, q[1..], from + q[0].size, to);
      hide Tiles, Owed;
      SplitAt(b, from, from + q[0].size, to);
    }
  }

  lemma SplitAt(b: seq<Quad>, i: nat, j: nat, k: nat)
    requires i <= j <= k <= |b|
    ensures b[i..k] == b[i..j] + b[j..k]
  {}

  lemma {:induction false} LapBytes(b: seq<Quad>, q: seq<Block>, from: nat, to: nat, limit: nat)
    requires Lap(q, from, to, limit) && to <= |b|
    requires Within(q, |b|)
    ensures from <= to && Bytes(b, q) == b[from..to]
    decreases |q|
  {
    LapOwes(q, from, to, limit);
    if q != [] && q[0].Block? {
      LapBytes(b, q[1..], from + q[0].size, to, limit);
      SplitAt(b, from, from + q[0].size, to);
    }
  }

  lemma {:induction false} TilesAppend(q: seq<Block>, from: nat, mid: nat, size: nat)
    requires Tiles(q, from, mid) && size > 0
    ensures Tiles(q + [Block(mid, size)], from, mid + size)
    decreases |q|
  {
    if q != [] {
      TilesAppend(q[1..], from + q[0].size, mid, size);
      assert (q + [Block(mid, size)])[1..] == q[1..] + [Block(mid, size)];
    }
  }

  /** A lap is closed by its blank packet. */
  lemma {:induction false} LapClosed(q: seq<Block>, from: nat, to: nat, limit: nat)
    requires Tiles(q, from, to)
    ensures Lap(if to < limit then q + [Blank(limit - to)] else q, from, to, limit)
    decreases |q|
  {
    if q != [] {
      LapClosed(q[1..], from + q[0].size, to, limit);
      assert to < limit ==> (q + [Blank(limit - to)])[1..] == q[1..] + [Blank(limit - to)];
    }
  }

  lemma {:induction false} OwedAppend(q: seq<Block>, r: seq<Block>)
    ensures Owed(q + r) == Owed(q) + Owed(r)
    decreases |q|
  {
    if q == [] { assert q + r == r; } else {
      OwedAppend(q[1..], r);
      assert (q + r)[1..] == q[1..] + r;
    }
  }

  /** The buffer as shared with the MTGS thread.  Bytes [start, curSize) are not queued yet; `prev`
      and `cur` are the queued packets of the previous lap and of this one, and the other fields
      tell which stretches of the buffer they cover. */
  datatype Buf = Buf(bytes: seq<Quad>, limit: nat, curSize: nat, start: nat, delivered: seq<Quad>,
                     prev: seq<Block>, prevFrom: nat, prevTo: nat, cur: seq<Block>, curFrom: nat)
  {
    /** At most two laps are unread, and this lap stays below what is unread of the one before. */
    ghost predicate Inv() {
      && start <= curSize <= |bytes| && 0 < limit <= |bytes|
      && Tiles(cur, curFrom, start)
      && (prev != [] ==>
            && Lap(prev, prevFrom, prevTo, limit) && prevTo <= |bytes| && curFrom == 0
            && (prevFrom < prevTo ==> curSize <= prevFrom))
    }

    function Queue(): seq<Block> { prev + cur }

    lemma Bounds()
      requires Inv()
      ensures Within(prev, |bytes|)
      ensures Within(cur, |bytes|)
      ensures curFrom <= start && (prev != [] ==> prevFrom <= prevTo)
    {
      TilesOwe(cur, curFrom, start);
      if prev != [] { LapOwes(prev, prevFrom, prevTo, limit); }
    }

    /** Every byte the path was given, in order: read by the MTGS thread, waiting in queued packets,
        and waiting in the buffer, each taken from where it is stored now. */
    ghost function Stream(): seq<Quad>
      requires Inv()
    {
      Bounds();
      delivered + Bytes(bytes, prev) + Bytes(bytes, cur) + bytes[start..curSize]
    }

    /** The same in two stretches of the buffer. */
    lemma StreamIs()
      requires Inv()
      ensures curFrom <= start && (prev != [] ==> prevFrom <= prevTo <= |bytes|)
      ensures Stream() == delivered + (if prev != [] then bytes[prevFrom..prevTo] else []) + bytes[curFrom..curSize]
    {
      hide Tiles, Lap, Bytes, Within;
      Bounds();
      if prev == [] { NoBytes(bytes); }
      TileBytes(bytes, cur, curFrom, start);
      if prev != [] { LapBytes(bytes, prev, prevFrom, prevTo, limit); }
      var earlier := if prev != [] then bytes[prevFrom..prevTo] else [];
      assert Bytes(bytes, prev) == earlier;
      assert bytes[curFrom..curSize] == bytes[curFrom..start] + bytes[start..curSize];
      assert delivered + earlier + (bytes[curFrom..start] + bytes[start..curSize])
             == delivered + earlier + bytes[curFrom..start] + bytes[start..curSize];
    }

    /** `readAmount` in terms of the stretches. */
    lemma OwedIs()
      requires Inv()
      ensures curFrom <= start
      ensures Owed(Queue()) == (if prev != [] then Max(limit, prevTo) - prevFrom else 0) + (start - curFrom)
      ensures prev != [] ==> Max(limit, prevTo) > prevFrom
    {
      OwedAppend(prev, cur);
      TilesOwe(cur, curFrom, start);
      if prev != [] { LapOwes(prev, prevFrom, prevTo, limit); }
    }
  }

  // ---- the MTGS thread ----

  /** It takes the packet in front and reads its bytes where they are stored. */
  function Pop(b: Buf): Buf
    requires b.Queue() != []
  {
    var p := b.Queue()[0];
    var read := if p.Block? && p.offset + p.size <= |b.bytes| then b.bytes[p.offset..p.offset + p.size] else [];
    if b.prev != [] then
      b.(delivered := b.delivered + read, prev := b.prev[1..], prevFrom := if p.Block? then b.prevFrom + p.size else b.prevFrom)
    else
      b.(delivered := b.delivered + read, cur := b.cur[1..], curFrom := b.curFrom + p.size)
  }

  lemma PopPrevInv(b: Buf)
    requires b.Inv() && b.prev != []
    ensures b.Queue()[0] == b.prev[0] && Pop(b).Inv()
  {
    hide Tiles, Bytes;
    assert Lap(b.prev, b.prevFrom, b.prevTo, b.limit);
  }

  lemma PopPrev(b: Buf)
    requires b.Inv() && b.prev != []
    ensures Pop(b).Inv() && Pop(b).Stream() == b.Stream()
  {
    hide Tiles, Lap, Buf.Inv;
    PopPrevInv(b);
    b.Bounds();
    var p := b.prev[0];
    var c := Pop(b);
    c.Bounds();
    var read := if p.Block? then b.bytes[p.offset..p.offset + p.size] else [];
    assert Bytes(b.bytes, b.prev) == read + Bytes(b.bytes, b.prev[1..]);
    assert b.delivered + (read + Bytes(b.bytes, b.prev[1..])) == b.delivered + read + Bytes(b.bytes, b.prev[1..]);
  }

  lemma PopCurInv(b: Buf)
    requires b.Inv() && b.prev == [] && b.cur != []
    ensures b.Queue()[0] == b.cur[0] && b.cur[0].Block? && Pop(b).Inv()
  {
    hide Lap, Bytes;
    assert b.Queue() == b.cur;
  }

  lemma BytesFirst(b: seq<Quad>, q: seq<Block>)
    requires q != [] && q[0].Block? && Within(q, |b|)
    ensures Within(q[1..], |b|) && q[0].offset + q[0].size <= |b|
    ensures Bytes(b, q) == b[q[0].offset..q[0].offset + q[0].size] + Bytes(b, q[1..])
  {}

  lemma PopCur(b: Buf)
    requires b.Inv() && b.prev == [] && b.cur != []
    ensures Pop(b).Inv() && Pop(b).Stream() == b.Stream()
  {
    hide Tiles, Lap, Bytes, Within;
    PopCurInv(b);
    b.Bounds();
    BytesFirst(b.bytes, b.cur);
    NoBytes(b.bytes);
    var p := b.cur[0];
    var c := Pop(b);
    c.Bounds();
    var read := b.bytes[p.offset..p.offset + p.size];
    var last := b.bytes[b.start..b.curSize];
    var rest := Bytes(b.bytes, b.cur[1..]);
    assert b.delivered + [] + (read + rest) + last == b.delivered + read + [] + rest + last;
  }

  /** Taking a packet moves its bytes from the queue to what was read. */
  lemma PopKeeps(b: Buf)
    requires b.Inv() && b.Queue() != []
    ensures Pop(b).Inv() && Pop(b).Stream() == b.Stream()
  {
    if b.prev != [] { PopPrev(b); } else { PopCur(b); }
  }

  // ---- the writing thread ----

  /** The test of `CopyGSPacketData` for n more quadwords, with the value it loaded from `readAmount`. */
  predicate CanPut(b: Buf, n: nat, seen: nat) {
    var readPos := b.start - seen;
    readPos >= 0 || b.limit + readPos > b.curSize + n
  }

  /** `data` written over s at `at`. */
  function Placed(s: seq<Quad>, at: nat, data: seq<Quad>): seq<Quad>
    requires at + |data| <= |s|
  {
    s[..at] + data + s[at + |data|..]
  }

  function Put(b: Buf, data: seq<Quad>): Buf
    requires b.curSize + |data| <= |b.bytes|
  {
    b.(bytes := Placed(b.bytes, b.curSize, data), curSize := b.curSize + |data|)
  }

  lemma PutShape(b: Buf, data: seq<Quad>)
    requires b.curSize + |data| <= |b.bytes|
    ensures var c := Put(b, data);
            && c.bytes == Placed(b.bytes, b.curSize, data) && |c.bytes| == |b.bytes|
            && c.limit == b.limit && c.curSize == b.curSize + |data| && c.start == b.start && c.Queue() == b.Queue()
  {}

  lemma NothingOwed(q: seq<Block>)
    ensures q == [] ==> Owed(q) == 0
  {}

  /** The test leaves room below the unread part of the lap before. */
  lemma PutFits(b: Buf, n: nat, seen: nat)
    requires b.Inv() && Owed(b.Queue()) <= seen && CanPut(b, n, seen)
    ensures b.prev != [] && b.prevFrom < b.prevTo ==> b.curSize + n < b.prevFrom
  {
    b.OwedIs();
  }

  /** `memcpy` after the test never touches an unread byte: the stream only grows at its end. */
  lemma PutKeeps(b: Buf, data: seq<Quad>, seen: nat)
    requires b.Inv() && b.curSize + |data| <= |b.bytes| && Owed(b.Queue()) <= seen && CanPut(b, |data|, seen)
    ensures Put(b, data).Inv() && Put(b, data).Stream() == b.Stream() + data
  {
    hide Tiles, Lap, Owed, Bytes, Buf.Stream, CanPut;
    PutFits(b, |data|, seen);
    b.StreamIs();
    var c := Put(b, data);
    assert c.Inv();
    c.StreamIs();
    assert c.bytes[c.curFrom..c.curSize] == b.bytes[b.curFrom..b.curSize] + data;
    if b.prev != [] {
      assert c.bytes[b.prevFrom..b.prevTo] == b.bytes[b.prevFrom..b.prevTo];
    }
    var before := b.delivered + (if b.prev != [] then b.bytes[b.prevFrom..b.prevTo] else []);
    assert before + (b.bytes[b.curFrom..b.curSize] + data) == before + b.bytes[b.curFrom..b.curSize] + data;
  }

  /** The test of `RealignPacket`. */
  predicate CanRealign(b: Buf, seen: nat) {
    var sizeToAdd := b.curSize - b.start;
    var intersect := Max(sizeToAdd - b.start, 0);
    b.start - seen >= sizeToAdd - intersect
  }

  /** The blank packet that closes a lap left at `at`. */
  function BlankAt(at: nat, limit: nat): seq<Block> {
    if at < limit then [Blank(limit - at)] else []
  }

  /** n quadwords from `from` copied to the front. */
  function FrontCopied(s: seq<Quad>, from: nat, n: nat): seq<Quad>
    requires from + n <= |s|
  {
    s[from..from + n] + s[n..]
  }

  function Realign(b: Buf): Buf
    requires b.start <= b.curSize <= |b.bytes|
  {
    var n := b.curSize - b.start;
    var blank := BlankAt(b.start, b.limit);
    b.(bytes := FrontCopied(b.bytes, b.start, n), curSize := n, start := 0,
       prev := b.prev + b.cur + blank, prevFrom := b.curFrom, prevTo := b.start, cur := [], curFrom := 0)
  }

  lemma RealignShape(b: Buf)
    requires b.prev == [] && b.start <= b.curSize <= |b.bytes|
    ensures var c := Realign(b); var blank := BlankAt(b.start, b.limit);
            && c.bytes == FrontCopied(b.bytes, b.start, b.curSize - b.start) && |c.bytes| == |b.bytes|
            && c.limit == b.limit && c.curSize == b.curSize - b.start && c.start == 0
            && c.Queue() == b.Queue() + blank && c.delivered == b.delivered
  {
    assert b.prev + b.cur == b.cur;
  }

  /** The parser's view of the buffer: k quadwords parsed into the packet, the rest to come. */
  ghost function ViewOf(b: Buf, at: nat, k: nat, tag: Tag, state: PathState, cycles: nat): Path
    requires at + k <= b.curSize <= |b.bytes|
  {
    Path(tag, state, b.bytes[at..at + k], cycles, b.bytes[at + k..b.curSize])
  }

  lemma PutView(b: Buf, data: seq<Quad>, at: nat, k: nat, tag: Tag, state: PathState, cycles: nat)
    requires at + k <= b.curSize && b.curSize + |data| <= |b.bytes|
    ensures var c := Put(b, data);
            && at + k <= c.curSize <= |c.bytes|
            && ViewOf(c, at, k, tag, state, cycles) == More(ViewOf(b, at, k, tag, state, cycles), data)
  {
    var c := Put(b, data);
    assert c.bytes[at..at + k] == b.bytes[at..at + k];
    assert c.bytes[at + k..c.curSize] == b.bytes[at + k..b.curSize] + data;
  }

  lemma ViewFields(b: Buf, at: nat, k: nat, tag: Tag, state: PathState, cycles: nat,
                   tag1: Tag, state1: PathState, cycles1: nat)
    requires at + k <= b.curSize <= |b.bytes|
    ensures ViewOf(b, at, k, tag1, state1, cycles1)
            == ViewOf(b, at, k, tag, state, cycles).(tag := tag1, state := state1, cycles := cycles1)
    ensures var v := ViewOf(b, at, k, tag, state, cycles); v.tag == tag && v.state == state && v.cycles == cycles
  {}

  lemma SendView(b: Buf, n: nat, at: nat, k: nat, tag: Tag, state: PathState, cycles: nat)
    requires at + k <= b.curSize <= |b.bytes|
    ensures var c := Send(b, n);
            && c.bytes == b.bytes && c.limit == b.limit && c.curSize == b.curSize && c.start == b.start + n
            && c.Queue() == b.Queue() + [Block(b.start, n)]
            && ViewOf(c, at, k, tag, state, cycles) == ViewOf(b, at, k, tag, state, cycles)
  {}

  /** The end of a packet in terms of the buffer: the next one begins behind it. */
  lemma FinishedView(b: Buf, at: nat, k: nat, tag: Tag, state: PathState, cycles: nat, state1: PathState)
    requires at + k <= b.curSize <= |b.bytes|
    ensures var p := ViewOf(b, at, k, tag, state, cycles);
            && |p.pack| == k && b.bytes[at..at + k] == p.pack
            && ViewOf(b, at + k, 0, tag, state1, 0) == p.(pack := [], cycles := 0, state := state1)
  {
    assert b.bytes[at + k..at + k] == [];
  }

  lemma DropView(b: Buf, at: nat, tag: Tag, state: PathState, cycles: nat)
    requires at <= b.curSize <= |b.bytes|
    ensures var n := b.curSize - at; var c := Drop(b, n);
            && c.bytes == b.bytes && c.limit == b.limit && c.start == b.start && c.Queue() == b.Queue() && c.curSize == at
            && ViewOf(c, at, 0, tag, state, cycles) == ViewOf(b, at, 0, tag, state, cycles).(rest := [])
            && |ViewOf(b, at, 0, tag, state, cycles).rest| == n
  {}

  function EmptyBuf(bytes: seq<Quad>, limit: nat): Buf {
    Buf(bytes, limit, 0, 0, [], [], 0, 0, [], 0)
  }

  lemma InitBuf(bytes: seq<Quad>, limit: nat)
    requires 0 < limit <= |bytes|
    ensures var b := EmptyBuf(bytes, limit);
            && b.Inv() && b.Stream() == [] && b.Queue() == [] && Owed(b.Queue()) == 0
            && b.bytes == bytes && b.limit == limit && b.curSize == 0 && b.start == 0 && |RESET_TAG.regs| == 16
            && ViewOf(b, 0, 0, RESET_TAG, Idle, 0) == INIT_PATH
  {}

  lemma ConsumeView(b: Buf, at: nat, k: nat, n: nat, tag: Tag, state: PathState, cycles: nat)
    requires at + k + n <= b.curSize <= |b.bytes|
    ensures var v := ViewOf(b, at, k, tag, state, cycles);
            n <= |v.rest| && ViewOf(b, at, k + n, tag, state, cycles) == Consume(v, n)
  {
    assert b.bytes[at..at + k] + b.bytes[at + k..b.curSize][..n] == b.bytes[at..at + k + n];
    assert b.bytes[at + k..b.curSize][n..] == b.bytes[at + k + n..b.curSize];
  }

  lemma RealignView(b: Buf, k: nat, tag: Tag, state: PathState, cycles: nat)
    requires b.start + k <= b.curSize <= |b.bytes|
    ensures var c := Realign(b);
            && 0 + k <= c.curSize <= |c.bytes|
            && ViewOf(c, 0, k, tag, state, cycles) == ViewOf(b, b.start, k, tag, state, cycles)
  {
    var f := Realign(b).bytes;
    assert f[0..k] == b.bytes[b.start..b.start + k];
    assert f[k..b.curSize - b.start] == b.bytes[b.start + k..b.curSize];
  }

  /** Moving the unfinished packet to the front overwrites no unread byte, and the ranges overlap
      only if nothing is unread. */
  lemma RealignKeeps(b: Buf, seen: nat)
    requires b.Inv() && Owed(b.Queue()) <= seen && CanRealign(b, seen)
    ensures b.prev == []
    ensures Realign(b).Inv() && Realign(b).Stream() == b.Stream()
    ensures b.curSize - b.start > b.start ==> b.Queue() == []
  {
    hide Realign, Owed, Buf.Stream, Buf.Queue, Buf.Inv;
    RealignFits(b, seen);
    RealignInv(b);
    RealignStream(b);
  }

  /** The unfinished packet fits in front of all that is unread. */
  ghost predicate FitsInFront(b: Buf) {
    b.prev == [] && b.curFrom <= b.start && (b.curFrom < b.start ==> b.curSize - b.start <= b.curFrom)
  }

  lemma RealignFits(b: Buf, seen: nat)
    requires b.Inv() && Owed(b.Queue()) <= seen && CanRealign(b, seen)
    ensures FitsInFront(b) && (b.curSize - b.start > b.start ==> b.Queue() == [])
  {
    hide Tiles, Lap, Owed;
    b.OwedIs();
    if b.curFrom == b.start { TilesEmpty(b.cur, b.start); }
  }

  /** The packets of the lap that is closed. */
  lemma RealignPrev(b: Buf)
    requires b.Inv() && FitsInFront(b)
    ensures Realign(b).prev == if b.start < b.limit then b.cur + [Blank(b.limit - b.start)] else b.cur
  {
    hide Tiles, Lap, FrontCopied;
    assert b.prev + b.cur == b.cur;
    assert b.cur + [] == b.cur;
  }

  lemma RealignInv(b: Buf)
    requires b.Inv() && FitsInFront(b)
    ensures Realign(b).Inv()
  {
    hide Tiles, Lap, FrontCopied;
    LapClosed(b.cur, b.curFrom, b.start, b.limit);
    RealignPrev(b);
    NoTiles();
    FrontCopy(b.bytes, b.curFrom, b.start, b.curSize - b.start);
    if b.curFrom == b.start { TilesEmpty(b.cur, b.start); }
  }

  /** What a copy to the front leaves alone, and what it brings there. */
  lemma FrontCopy(s: seq<Quad>, from: nat, start: nat, n: nat)
    requires start + n <= |s| && from <= start && (from < start ==> n <= from)
    ensures var f := FrontCopied(s, start, n); |f| == |s| && f[from..start] == s[from..start] && f[0..n] == s[start..start + n]
  {}

  lemma RealignStream(b: Buf)
    requires b.Inv() && FitsInFront(b) && Realign(b).Inv()
    ensures Realign(b).Stream() == b.Stream()
  {
    hide Tiles, Lap, Buf.Stream, Buf.Inv, Realign;
    RealignPieces(b);
    b.StreamIs();
    Realign(b).StreamIs();
    TwoParts(b.delivered, b.bytes[b.curFrom..b.start], b.bytes[b.start..b.curSize]);
  }

  /** The two stretches of the buffer before and after. */
  lemma RealignPieces(b: Buf)
    requires b.Inv() && FitsInFront(b) && Realign(b).Inv()
    ensures b.curFrom <= b.start <= b.curSize <= |b.bytes|
    ensures b.bytes[b.curFrom..b.curSize] == b.bytes[b.curFrom..b.start] + b.bytes[b.start..b.curSize]
    ensures var c := Realign(b);
            && c.delivered == b.delivered && c.curFrom <= c.curSize <= |c.bytes| && c.prevFrom <= c.prevTo <= |c.bytes|
            && c.bytes[c.curFrom..c.curSize] == b.bytes[b.start..b.curSize]
            && (if c.prev != [] then c.bytes[c.prevFrom..c.prevTo] else []) == b.bytes[b.curFrom..b.start]
  {
    hide Tiles, Lap, FrontCopied;
    RealignPrev(b);
    FrontCopy(b.bytes, b.curFrom, b.start, b.curSize - b.start);
    SplitAt(b.bytes, b.curFrom, b.start, b.curSize);
    if Realign(b).prev == [] { EmptyLap(b); }
  }

  lemma EmptyLap(b: Buf)
    requires b.Inv() && b.cur == []
    ensures b.bytes[b.curFrom..b.start] == []
  {}

  lemma TwoParts(a: seq<Quad>, b: seq<Quad>, c: seq<Quad>)
    ensures a + [] + (b + c) == a + b + c && a + [] == a
  {}

  lemma NoTiles()
    ensures Tiles([], 0, 0)
  {}

  lemma TilesEmpty(q: seq<Block>, at: nat)
    requires Tiles(q, at, at)
    ensures q == []
  {
    if q != [] { TilesOwe(q[1..], at + q[0].size, at); }
  }

  /** `Gif_AddCompletedGSPacket` for the first n quadwords not queued yet. */
  function Send(b: Buf, n: nat): Buf {
    b.(cur := b.cur + [Block(b.start, n)], start := b.start + n)
  }

  lemma SendKeeps(b: Buf, n: nat)
    requires b.Inv() && 0 < n && b.start + n <= b.curSize
    ensures Send(b, n).Inv() && Send(b, n).Stream() == b.Stream()
  {
    TilesAppend(b.cur, b.curFrom, b.start, n);
    b.StreamIs();
    Send(b, n).StreamIs();
  }

  /** Path 3 gives back its last n quadwords. */
  function Drop(b: Buf, n: nat): Buf
    requires n <= b.curSize
  {
    b.(curSize := b.curSize - n)
  }

  lemma DropKeeps(b: Buf, n: nat)
    requires b.Inv() && b.start + n <= b.curSize
    ensures Drop(b, n).Inv() && |b.Stream()| >= n && Drop(b, n).Stream() == b.Stream()[..|b.Stream()| - n]
  {
    b.Bounds();
    assert b.bytes[b.start..b.curSize] == b.bytes[b.start..b.curSize - n] + b.bytes[b.curSize - n..b.curSize];
    var c := Drop(b, n);
    c.Bounds();
    assert b.Stream() == c.Stream() + b.bytes[b.curSize - n..b.curSize];
  }

  // ---- every interleaving ----

  /** One atomic action of either thread.  `seen` is the value the writer loaded from `readAmount`;
      the MTGS thread may have read on since. */
  datatype Action =
    | Reads
    | Copies(data: seq<Quad>, seen: nat)
    | Realigns(seen: nat)
    | Sends(n: nat)
    | Drops(n: nat)

  ghost predicate Enabled(b: Buf, a: Action) {
    match a
    case Reads => b.Queue() != []
    case Copies(data, seen) => b.curSize + |data| <= |b.bytes| && Owed(b.Queue()) <= seen && CanPut(b, |data|, seen)
    case Realigns(seen) => b.start <= b.curSize <= |b.bytes| && Owed(b.Queue()) <= seen && CanRealign(b, seen)
    case Sends(n) => 0 < n && b.start + n <= b.curSize
    case Drops(n) => b.start + n <= b.curSize
  }

  ghost function Act(b: Buf, a: Action): Buf
    requires Enabled(b, a)
  {
    match a
    case Reads => Pop(b)
    case Copies(data, _) => Put(b, data)
    case Realigns(_) => Realign(b)
    case Sends(n) => Send(b, n)
    case Drops(n) => Drop(b, n)
  }

  lemma ActKeeps(b: Buf, a: Action)
    requires b.Inv() && Enabled(b, a)
    ensures Act(b, a).Inv()
    ensures Act(b, a).Stream() == Fed(b.Stream(), a)
  {
    match a
    case Reads => PopKeeps(b);
    case Copies(data, seen) => PutKeeps(b, data, seen);
    case Realigns(seen) => RealignKeeps(b, seen);
    case Sends(n) => SendKeeps(b, n);
    case Drops(n) => DropKeeps(b, n);
  }

  /** The path's byte stream as its user sees it: copies append, a rewind takes back the end. */
  function Fed(s: seq<Quad>, a: Action): seq<Quad> {
    match a
    case Copies(data, _) => s + data
    case Drops(n) => if n <= |s| then s[..|s| - n] else s
    case _ => s
  }

  function FedAll(s: seq<Quad>, run: seq<Action>): seq<Quad>
    decreases |run|
  {
    if run == [] then s else FedAll(Fed(s, run[0]), run[1..])
  }

  ghost predicate Possible(b: Buf, run: seq<Action>)
    decreases |run|
  {
    run == [] || (Enabled(b, run[0]) && Possible(Act(b, run[0]), run[1..]))
  }

  ghost function After(b: Buf, run: seq<Action>): Buf
    requires Possible(b, run)
    decreases |run|
  {
    if run == [] then b else After(Act(b, run[0]), run[1..])
  }

  /** Path buffer safety: over every interleaving, the bytes read so far, the queued packets and the
      unqueued bytes, read from where they are stored, are exactly the stream that was copied in. */
  lemma {:induction false} NoUnreadByteIsOverwritten(b: Buf, run: seq<Action>)
    requires b.Inv() && Possible(b, run)
    ensures After(b, run).Inv() && After(b, run).Stream() == FedAll(b.Stream(), run)
    decreases |run|
  {
    if run != [] {
      ActKeeps(b, run[0]);
      NoUnreadByteIsOverwritten(Act(b, run[0]), run[1..]);
    }
  }

  /** A writer that waits is never stuck: once everything is read, its tests hold. */
  lemma WaitsEnd(b: Buf, n: nat)
    requires b.Inv() && b.Queue() == []
    ensures CanPut(b, n, Owed(b.Queue())) && CanRealign(b, Owed(b.Queue()))
  {}

  /** p after loading the tag in front of its unparsed bytes. */
  ghost predicate Loaded(p: Path, q: Path, enough: bool) {
    && |p.tag.regs| == 16 && p.rest != []
    && var t := SetTag(p.tag.regs, p.rest[0]);
       var p1 := p.(tag := t, state := StateOf(p.rest[0]));
       && enough == (t.hasAD || 1 + t.len <= |p.rest|)
       && q == if enough then Consume(p1.(cycles := p.cycles + 2 + t.cycles), 1) else p1.(tag := t.(isValid := false))
  }

  /** p after one quadword of a tag that writes registers. */
  ghost predicate PackedQuadOf(p: Path, gs: Handler, q: Path, gs1: Handler, stall: bool) {
    && p.rest != []
    && q == Consume(p, 1).(tag := p.tag.PackedStep())
    && Handled(gs1, stall) == if p.tag.CurReg() == AD_REGISTER then HandleAD(gs, p.rest[0]) else Handled(gs, false)
  }

  function StalledAt(p: Path, gs: Handler): Result { NotDone(p, gs).(stalled := true) }

  /** What follows when all quadwords of the loaded tag are consumed. */
  function AfterTag(p: Path, gs: Handler, ctx: Ctx): Result
    requires |p.tag.regs| == 16
  {
    var p1 := p.(tag := p.tag.(isValid := false));
    if Eop(p.tag.hdr) then Finished(p1, gs, ctx) else Exec(p1, gs, ctx)
  }

  lemma ExecTagEnd(p: Path, gs: Handler, ctx: Ctx)
    requires |p.tag.regs| == 16 && p.tag.isValid && p.tag.nLoop == 0
    ensures Exec(p, gs, ctx) == AfterTag(p, gs, ctx)
  {
    hide Finished, Eop;
  }

  lemma ExecDry(p: Path, gs: Handler, ctx: Ctx)
    requires |p.tag.regs| == 16 && p.rest == [] && (p.tag.isValid ==> p.tag.nLoop > 0)
    ensures Exec(p, gs, ctx) == NotDone(p, gs)
  {}

  lemma ExecPacked(p: Path, gs: Handler, q: Path, gs1: Handler, stall: bool, ctx: Ctx)
    requires |p.tag.regs| == 16 && p.tag.isValid && p.tag.nLoop > 0 && PackedQuadOf(p, gs, q, gs1, stall)
    ensures |q.tag.regs| == 16 && q.tag.isValid && q.tag.hasAD == p.tag.hasAD && q.tag.hdr == p.tag.hdr
    ensures |q.rest| < |p.rest|
    ensures Exec(p, gs, ctx) == if stall && !(Eop(q.tag.hdr) && q.tag.nLoop == 0) then StalledAt(q, gs1) else Exec(q, gs1, ctx)
  {
    hide HandleAD, Finished;
    assert TurnOf(p, gs) == PackedTurn(p, gs);
  }

  lemma ConsumeTwice(p: Path, n: nat)
    requires 1 + n <= |p.rest|
    ensures n <= |Consume(p, 1).rest| && Consume(Consume(p, 1), n) == Consume(p, 1 + n)
  {
    assert p.rest[1..][..n] == p.rest[1..1 + n];
    assert p.rest[..1] + p.rest[1..1 + n] == p.rest[..1 + n];
    assert p.pack + p.rest[..1] + p.rest[1..1 + n] == p.pack + (p.rest[..1] + p.rest[1..1 + n]);
    assert p.rest[1..][n..] == p.rest[1 + n..];
  }

  lemma ExecLoad(p: Path, gs: Handler, q: Path, enough: bool, ctx: Ctx)
    requires |p.tag.regs| == 16 && !p.tag.isValid && Loaded(p, q, enough)
    ensures |q.tag.regs| == 16 && q.tag.isValid == enough
    ensures !enough ==> Exec(p, gs, ctx) == NotDone(q, gs)
    ensures enough && q.tag.hasAD ==> Exec(p, gs, ctx) == Exec(q, gs, ctx) && |q.rest| < |p.rest|
    ensures enough && !q.tag.hasAD ==>
              q.tag.len <= |q.rest| < |p.rest| && Exec(p, gs, ctx) == AfterTag(Consume(q, q.tag.len), gs, ctx)
  {
    hide Finished, Eop, AnyAD, PayloadLen, Exec, SetTag, Register, Nibble, Flg, NReg, NLoop, StateOf;
    ExecIs(p, gs, ctx);
    var t := SetTag(p.tag.regs, p.rest[0]);
    var p2 := p.(tag := t, state := StateOf(p.rest[0]), cycles := p.cycles + 2 + t.cycles);
    assert TurnOf(p, gs) == LoadTag(p, gs);
    if enough && !t.hasAD { ConsumeTwice(p2, t.len); }
  }

  lemma PopQueue(b: Buf)
    requires b.Queue() != []
    ensures Pop(b).Queue() == b.Queue()[1..]
  {}

  class GifPath {
    const buffSize: nat
    const buffLimit: nat
    const buffer: array<Quad>

    var curSize: nat      // used part of the buffer
    var curOffset: nat    // where parsing goes on
    var packOffset: nat   // gsPack
    var packSize: nat
    var packCycles: nat
    var tag: Tag
    var state: PathState
    var dmaRewind: nat

    // Shared with the MTGS thread.
    var readAmount: nat
    var queue: seq<Block>

    ghost var inHand: nat  // size of a completed packet that is not queued yet
    ghost var shared: Buf  // the buffer as the safety argument sees it

    ghost predicate Valid()
      reads this, buffer
    {
      && buffer.Length == buffSize
      && packSize <= curOffset <= curSize <= buffSize && packOffset + packSize == curOffset
      && readAmount == Owed(queue)
      && |tag.regs| == 16
      && shared.Inv()
      && shared.bytes == buffer[..] && shared.limit == buffLimit && shared.curSize == curSize
      && shared.start + inHand == packOffset && shared.Queue() == queue
    }

    /** The parser's view of the buffer. */
    ghost function View(): (v: Path)
      reads this, buffer
      requires Valid()
      ensures v.tag == tag && v.state == state && v.cycles == packCycles
      ensures |v.pack| == packSize && |v.rest| == curSize - curOffset
    {
      ViewOf(shared, packOffset, packSize, tag, state, packCycles)
    }

    /** Every byte the path was given: read by the MTGS thread, queued, or still in the buffer. */
    ghost function Stream(): seq<Quad>
      reads this, buffer
      requires Valid()
    {
      shared.Stream()
    }

    constructor (size: nat, safeZone: nat)
      requires safeZone < size
      ensures Valid() && Stream() == [] && fresh(buffer) && inHand == 0
      ensures buffSize == size && buffLimit == size - safeZone && View() == INIT_PATH
    {
      hide Tiles, Lap, Bytes, Owed, Buf.Stream, Buf.Inv, Buf.Queue, ViewOf, INIT_PATH, RESET_TAG, EmptyBuf;
      buffSize, buffLimit := size, size - safeZone;
      buffer := new Quad[size];
      curSize, curOffset, packOffset, packSize, packCycles := 0, 0, 0, 0, 0;
      tag, state, dmaRewind, readAmount, queue := RESET_TAG, Idle, 0, 0, [];
      inHand := 0;
      new;
      InitBuf(buffer[..], buffLimit);
      shared := EmptyBuf(buffer[..], buffLimit);
    }

    /** The MTGS thread takes one packet: it reads the bytes where they are stored, then lowers
        `readAmount`.  `read` is what it passes on. */
    method MtgsStep() returns (read: seq<Quad>)
      requires Valid() && queue != []
      modifies `queue, `readAmount, `shared
      ensures Valid() && shared == Pop(old(shared)) && shared.delivered == old(shared).delivered + read
      ensures Stream() == old(Stream()) && View() == old(View())
      ensures queue == old(queue)[1..] && readAmount == old(readAmount) - old(queue)[0].size
    {
      hide Tiles, Lap, Bytes;
      PopKeeps(shared);
      PopQueue(shared);
      shared.Bounds();
      var p := queue[0];
      assert p == if shared.prev != [] then shared.prev[0] else shared.cur[0];
      read := [];
      if p.Block? { read := buffer[p.offset..p.offset + p.size]; }
      shared := Pop(shared);
      queue := queue[1..];
      readAmount := readAmount - p.size;
    }

    /** The MTGS thread takes any number of packets, as it may at any moment. */
    method MtgsMayRun()
      requires Valid()
      modifies `queue, `readAmount, `shared
      ensures Valid() && Stream() == old(Stream()) && View() == old(View())
      ensures |queue| <= |old(queue)| && readAmount <= old(readAmount)
    {
      var more: bool := *;
      while more && queue != []
        invariant Valid() && Stream() == old(Stream()) && View() == old(View())
        invariant |queue| <= |old(queue)| && readAmount <= old(readAmount)
        decreases |queue|
      {
        var _ := MtgsStep();
        more := *;
      }
    }

    /** `mtgsReadWait`: the MTGS thread takes one or more packets. */
    method MtgsReadWait()
      requires Valid() && queue != []
      modifies `queue, `readAmount, `shared
      ensures Valid() && Stream() == old(Stream()) && View() == old(View())
      ensures |queue| < |old(queue)|
    {
      var _ := MtgsStep();
      MtgsMayRun();
    }

    /** `memcpy` inside the buffer; the C function demands disjoint ranges. */
    method MemCpy(from: nat, n: nat)
      requires n <= from && from + n <= buffer.Length
      modifies buffer
      ensures buffer[..] == FrontCopied(old(buffer[..]), from, n)
    {
      forall i | 0 <= i < n { buffer[i] := buffer[from + i]; }
    }

    /** `memmove` to the front of the buffer. */
    method MemMove(from: nat, n: nat)
      requires from + n <= buffer.Length
      modifies buffer
      ensures buffer[..] == FrontCopied(old(buffer[..]), from, n)
    {
      forall i | 0 <= i < n { buffer[i] := buffer[from + i]; }
    }

    /** Close the lap: owe the blank packet first, then queue it (`Gif_AddBlankGSPacket`). */
    method AddBlank(offset: nat)
      requires readAmount == Owed(queue)
      modifies `queue, `readAmount
      ensures queue == old(queue) + BlankAt(offset, buffLimit) && readAmount == Owed(queue)
    {
      if offset < buffLimit {
        OwedAppend(queue, [Blank(buffLimit - offset)]);
        readAmount := readAmount + (buffLimit - offset);
        queue := queue + [Blank(buffLimit - offset)];
      }
    }

    /** The copy of `RealignPacket`: `memcpy` only where the ranges are disjoint. */
    method CopyToFront(from: nat, n: nat)
      requires from + n <= buffer.Length
      modifies buffer
      ensures buffer[..] == FrontCopied(old(buffer[..]), from, n)
    {
      if n > from { MemMove(from, n); } else { MemCpy(from, n); }
    }

    /** The waiting loop of `RealignPacket`; the MTGS thread may run on after the test. */
    method AwaitFront()
      requires Valid() && inHand == 0
      modifies `queue, `readAmount, `shared
      ensures Valid() && Stream() == old(Stream()) && View() == old(View())
      ensures CanRealign(shared, readAmount)
    {
      hide Tiles, Lap, Bytes;
      var offset := curOffset - packSize;
      var sizeToAdd := curSize - offset;
      var intersect := sizeToAdd - offset;
      if intersect < 0 { intersect := 0; }
      while true
        invariant Valid() && Stream() == old(Stream()) && View() == old(View())
        decreases |queue|
      {
        var frontFree := offset - readAmount;
        if frontFree >= sizeToAdd - intersect { break; }
        MtgsReadWait();
      }
      MtgsMayRun();
    }

    /** The moving part of `RealignPacket`. */
    method MoveToFront()
      requires Valid() && inHand == 0 && CanRealign(shared, readAmount)
      modifies this, buffer
      ensures Valid() && inHand == 0 && Stream() == old(Stream()) && View() == old(View())
      ensures packOffset == 0 && curSize == old(curSize - packOffset) && dmaRewind == old(dmaRewind)
    {
      hide Tiles, Lap, Bytes, Owed, Buf.Stream, CanRealign, Max, ViewOf, Buf.Inv, FrontCopied, Realign, Buf.Queue,
           BlankAt;
      var offset := curOffset - packSize;
      ghost var b := shared;
      RealignKeeps(b, readAmount);
      RealignShape(b);
      RealignView(b, packSize, tag, state, packCycles);
      AddBlank(offset);
      curSize := curSize - offset;
      curOffset := packSize;
      packOffset := 0;
      shared := Realign(b);
      assert buffer[..] == b.bytes;
      CopyToFront(offset, curSize);
      assert buffer[..] == shared.bytes;
      assert Valid();
    }

    /** `RealignPacket`: the packet being built moves to the front of the buffer. */
    method RealignPacket()
      requires Valid() && inHand == 0
      modifies this, buffer
      ensures Valid() && inHand == 0 && Stream() == old(Stream()) && View() == old(View())
      ensures packOffset == 0 && curSize == old(curSize - packOffset) && dmaRewind == old(dmaRewind)
    {
      AwaitFront();
      MoveToFront();
    }

    /** The waiting loop of `CopyGSPacketData`. */
    method AwaitRoom(size: nat)
      requires Valid() && inHand == 0
      modifies `queue, `readAmount, `shared
      ensures Valid() && Stream() == old(Stream()) && View() == old(View())
      ensures CanPut(shared, size, readAmount)
    {
      hide Tiles, Lap, Bytes, Owed, Buf.Stream, ViewOf, Buf.Inv, Buf.Queue;
      while true
        invariant Valid() && Stream() == old(Stream()) && View() == old(View())
        decreases |queue|
      {
        var offset := curOffset - packSize;
        var readPos := offset - readAmount;
        if readPos >= 0 { break; }
        if buffLimit + readPos > curSize + size { break; }
        NothingOwed(queue);
        MtgsReadWait();
      }
      MtgsMayRun();
    }

    /** `CopyGSPacketData`.  The caller's packets must fit the buffer, as the source asserts. */
    method CopyGSPacketData(data: seq<Quad>)
      requires Valid() && inHand == 0
      requires curSize - packOffset + |data| <= buffSize
      modifies this, buffer
      ensures Valid() && inHand == 0 && Stream() == old(Stream()) + data
      ensures View() == More(old(View()), data) && dmaRewind == old(dmaRewind)
    {
      hide Tiles, Lap, Bytes, Owed, Buf.Stream, CanPut, ViewOf, Buf.Inv, Buf.Queue, Put;
      if curSize + |data| > buffSize {
        RealignPacket();
      }
      AwaitRoom(|data|);
      ghost var b := shared;
      PutKeeps(b, data, readAmount);
      PutShape(b, data);
      PutView(b, data, packOffset, packSize, tag, state, packCycles);
      MemCpyIn(data);
      curSize := curSize + |data|;
      shared := Put(b, data);
    }

    method MemCpyIn(data: seq<Quad>)
      requires curSize + |data| <= buffer.Length
      modifies buffer
      ensures buffer[..] == Placed(old(buffer[..]), curSize, data)
    {
      forall i | 0 <= i < |data| { buffer[curSize + i] := data[i]; }
    }

    /** `incTag`: n more quadwords belong to the packet. */
    method IncTag(n: nat)
      requires Valid() && curOffset + n <= curSize
      modifies `curOffset, `packSize
      ensures Valid() && n <= |old(View()).rest| && View() == Consume(old(View()), n)
      ensures |View().rest| == |old(View()).rest| - n
    {
      hide Tiles, Lap, Bytes, Owed, Buf.Stream, ViewOf, Buf.Inv, Buf.Queue;
      ConsumeView(shared, packOffset, packSize, n, tag, state, packCycles);
      curOffset := curOffset + n;
      packSize := packSize + n;
    }

    lemma Next()
      requires Valid() && curOffset < curSize
      ensures View().rest[0] == buffer[curOffset]
    {
      hide Tiles, Lap, Bytes, Owed, Buf.Stream, Buf.Inv, Buf.Queue;
    }

    /** The part of `ExecuteGSPacket` that loads a tag; false if its data is not complete. */
    method LoadNextTag() returns (enough: bool)
      requires Valid() && inHand == 0 && curOffset < curSize
      modifies `state, `tag, `packCycles, `curOffset, `packSize
      ensures Valid() && Loaded(old(View()), View(), enough)
    {
      hide Tiles, Lap, Bytes, Owed, Buf.Stream, Buf.Inv, Buf.Queue, SetTag, StateOf, PayloadLen, AnyAD, Flg, ViewOf;
      Next();
      ghost var p, b := View(), shared;
      state := StateOf(buffer[curOffset]);
      tag := SetTag(tag.regs, buffer[curOffset]);
      if !tag.hasAD && curOffset + 1 + tag.len > curSize {
        tag := tag.(isValid := false);
        enough := false;
        ViewFields(b, packOffset, packSize, p.tag, p.state, p.cycles, tag, state, packCycles);
      } else {
        packCycles := packCycles + 2 + tag.cycles;
        ViewFields(b, packOffset, packSize, p.tag, p.state, p.cycles, tag, state, packCycles);
        IncTag(1);
        enough := true;
      }
    }

    /** One quadword of a tag that writes registers. */
    method PackedQuad(gs0: Handler) returns (gs: Handler, dblSIGNAL: bool)
      requires Valid() && tag.isValid && tag.nLoop > 0 && curOffset < curSize
      modifies `curOffset, `packSize, `tag
      ensures Valid() && PackedQuadOf(old(View()), gs0, View(), gs, dblSIGNAL)
    {
      hide Tiles, Lap, Bytes, Owed, Buf.Stream, Buf.Inv, Buf.Queue, HandleAD;
      gs, dblSIGNAL := gs0, false;
      if tag.CurReg() == AD_REGISTER {
        assert View().rest[0] == buffer[curOffset];
        var h := HandleAD(gs, buffer[curOffset]);
        gs, dblSIGNAL := h.gs, h.stall;
      }
      IncTag(1);
      tag := tag.PackedStep();
    }

    /** The inner loop of `ExecuteGSPacket`.  It leaves early when data runs out or SIGNAL stalls. */
    method PackedLoop(gs0: Handler, ctx: Ctx) returns (gs: Handler, early: bool)
      requires Valid() && tag.isValid && tag.hasAD
      modifies `curOffset, `packSize, `tag
      ensures Valid() && tag.isValid && tag.hasAD && tag.hdr == old(tag.hdr)
      ensures |View().rest| <= |old(View()).rest|
      ensures var r := Exec(old(View()), gs0, ctx);
              if early then r.path == View() && r.gs == gs && !r.done && r.packet == [] && r.rewound == []
              else tag.nLoop == 0 && r == AfterTag(View(), gs, ctx)
    {
      hide Tiles, Lap, Bytes, Owed, Buf.Stream, Buf.Inv, Buf.Queue, ViewOf, TurnOf, Finished, Consume, HandleAD, Exec,
           Eop;
      gs := gs0;
      var dblSIGNAL := false;
      while tag.nLoop > 0 && !dblSIGNAL
        invariant Valid() && tag.isValid && tag.hasAD && tag.hdr == old(tag.hdr)
        invariant |View().rest| <= |old(View()).rest|
        invariant Exec(old(View()), gs0, ctx) ==
                  if dblSIGNAL && !(Eop(tag.hdr) && tag.nLoop == 0) then StalledAt(View(), gs) else Exec(View(), gs, ctx)
        decreases |View().rest|
      {
        ghost var p, g := View(), gs;
        if curOffset + 1 > curSize {
          ExecDry(p, gs, ctx);
          return gs, true;
        }
        gs, dblSIGNAL := PackedQuad(gs);
        ExecPacked(p, g, View(), gs, dblSIGNAL, ctx);
      }
      if dblSIGNAL && !(Eop(tag.hdr) && tag.nLoop == 0) {
        return gs, true;
      }
      ExecTagEnd(View(), gs, ctx);
      early := false;
    }

    /** The tag is used up; the next turn loads a new one. */
    method Unload()
      requires Valid()
      modifies `tag
      ensures Valid() && tag == old(tag).(isValid := false) && View() == old(View()).(tag := tag)
    {
      hide Tiles, Lap, Bytes, Owed, Buf.Stream, Buf.Inv, Buf.Queue;
      tag := tag.(isValid := false);
    }

    /** Path 3 gives back what is behind a packet it completed. */
    method GiveBack()
      requires Valid() && packSize == 0
      modifies `dmaRewind, `curSize, `shared
      ensures Valid() && shared.bytes == old(shared.bytes)
      ensures View() == old(View()).(rest := []) && dmaRewind == |old(View()).rest|
      ensures dmaRewind <= |old(Stream())| && Stream() == old(Stream())[..|old(Stream())| - dmaRewind]
    {
      hide Tiles, Lap, Bytes, Owed, Buf.Stream, Buf.Inv, Buf.Queue, ViewOf, Drop;
      DropView(shared, packOffset, tag, state, packCycles);
      DropKeeps(shared, curSize - curOffset);
      dmaRewind := curSize - curOffset;
      curSize := curOffset;
      shared := Drop(shared, dmaRewind);
    }

    /** The EOP branch of `ExecuteGSPacket`. */
    method FinishPacket(ghost gs: Handler, ctx: Ctx) returns (packet: Block)
      requires Valid() && inHand == 0 && !tag.isValid
      modifies `dmaRewind, `packOffset, `packSize, `packCycles, `state, `curSize, `inHand, `shared
      ensures Valid()
      ensures var r := Finished(old(View()), gs, ctx);
              && r.done && r.gs == gs && View() == r.path && inHand == |r.packet| && dmaRewind == |r.rewound|
              && packet == Block(old(packOffset), inHand) && old(packOffset) + inHand == packOffset <= |shared.bytes|
              && shared.bytes[old(packOffset)..packOffset] == r.packet
              && |r.rewound| <= |old(Stream())| && Stream() == old(Stream())[..|old(Stream())| - |r.rewound|]
    {
      hide Tiles, Lap, Bytes, Owed, Buf.Stream, Buf.Inv, Buf.Queue, Eop, ViewOf, Drop;
      ghost var s := Stream();
      FinishedView(shared, packOffset, packSize, tag, state, packCycles, if ctx.onPath3 then Wait else Idle);
      packet := Block(packOffset, packSize);
      dmaRewind := 0;
      inHand := packSize;
      packOffset := curOffset;
      packSize := 0;
      packCycles := 0;
      if ctx.onPath3 {
        state := Wait;
        if curSize - curOffset > 0 && ctx.masked { GiveBack(); }
      } else {
        state := Idle;
      }
      assert s[..|s|] == s;
    }

    /** One turn of the loop of `ExecuteGSPacket`: load a tag unless one is loaded, then consume its
        quadwords.  False if the call has to return without a packet. */
    method ParseTag(gs0: Handler, ctx: Ctx) returns (gs: Handler, more: bool)
      requires Valid() && inHand == 0 && (tag.isValid ==> tag.hasAD)
      modifies this, buffer
      ensures Valid() && inHand == 0 && (tag.isValid ==> tag.hasAD)
      ensures Stream() == old(Stream()) && dmaRewind == old(dmaRewind)
      ensures more ==> !tag.isValid && (|View().rest| < |old(View()).rest| || (|View().rest| == |old(View()).rest| && old(tag.isValid)))
      ensures var r := Exec(old(View()), gs0, ctx);
              if !more then View() == r.path && gs == r.gs && !r.done && r.packet == [] && r.rewound == []
              else r == if Eop(tag.hdr) then Finished(View(), gs, ctx) else Exec(View(), gs, ctx)
    {
      hide Tiles, Lap, Bytes, Owed, Buf.Stream, Buf.Inv, Buf.Queue, ViewOf, TurnOf, Finished, Consume, HandleAD, Exec,
           Eop, Loaded;
      gs, more := gs0, false;
      if !tag.isValid {
        if curOffset + 1 > curSize {
          ExecDry(View(), gs, ctx);
          return;
        }
        if curOffset > buffLimit {
          RealignPacket();
        }
        ghost var p := View();
        var enough := LoadNextTag();
        ExecLoad(p, gs, View(), enough, ctx);
        if !enough { return; }
      }
      if tag.hasAD {
        var early;
        gs, early := PackedLoop(gs, ctx);
        if early { return; }
      } else {
        IncTag(tag.len);
      }
      more := true;
      Unload();
    }

    /** `ExecuteGSPacket` on the buffer is the parser on the path's view of it.  A completed packet
        stays where it is in the buffer; what path 3 gives back is cut off the end. */
    method ExecuteGSPacket(gs0: Handler, ctx: Ctx) returns (gs: Handler, done: bool, packet: Block)
      requires Valid() && inHand == 0 && (tag.isValid ==> tag.hasAD)
      modifies this, buffer
      ensures Valid() && (tag.isValid ==> tag.hasAD)
      ensures var r := Exec(old(View()), gs0, ctx);
              && View() == r.path && gs == r.gs && done == r.done
              && inHand == |r.packet|
              && dmaRewind == (if done then |r.rewound| else old(dmaRewind))
              && |r.rewound| <= |old(Stream())| && Stream() == old(Stream())[..|old(Stream())| - |r.rewound|]
      ensures done ==> packet == Block(packOffset - inHand, inHand) && inHand <= packOffset <= |shared.bytes|
                       && shared.bytes[packOffset - inHand..packOffset] == Exec(old(View()), gs0, ctx).packet
    {
      hide Tiles, Lap, Bytes, Owed, Buf.Stream, Buf.Inv, Buf.Queue, ViewOf, Finished, Exec, Eop;
      gs, done, packet := gs0, false, Blank(0);
      while true
        invariant Valid() && inHand == 0 && (tag.isValid ==> tag.hasAD)
        invariant Stream() == old(Stream()) && dmaRewind == old(dmaRewind)
        invariant Exec(View(), gs, ctx) == Exec(old(View()), gs0, ctx)
        decreases |View().rest|, tag.isValid
      {
        var more;
        gs, more := ParseTag(gs, ctx);
        if !more { return; }
        if Eop(tag.hdr) {
          packet := FinishPacket(gs, ctx);
          done := true;
          return;
        }
      }
    }

    /** `Gif_AddCompletedGSPacket`: owe first, then queue. */
    method AddCompletedGSPacket(packet: Block)
      requires Valid() && 0 < inHand && packet == Block(packOffset - inHand, inHand)
      modifies `readAmount, `queue, `inHand, `shared
      ensures Valid() && inHand == 0 && Stream() == old(Stream()) && View() == old(View())
      ensures queue == old(queue) + [packet]
    {
      hide Tiles, Lap, Bytes, Buf.Stream, Buf.Inv, ViewOf, Send, Buf.Queue;
      SendKeeps(shared, inHand);
      SendView(shared, inHand, packOffset, packSize, tag, state, packCycles);
      OwedAppend(queue, [packet]);
      readAmount := readAmount + packet.size;
      queue := queue + [packet];
      shared := Send(shared, inHand);
      inHand := 0;
    }

    /** `FlushToMTGS`: a packet without EOP is handed over as it is. */
    method FlushToMTGS()
      requires Valid() && inHand == 0
      modifies `readAmount, `queue, `inHand, `shared, `packOffset, `packSize
      ensures Valid() && inHand == 0 && Stream() == old(Stream())
      ensures View() == if old(packSize) > 0 && !tag.isValid then old(View()).(pack := []) else old(View())
    {
      hide Tiles, Lap, Bytes, Owed, Buf.Stream, Buf.Inv, Buf.Queue;
      if packSize > 0 && !tag.isValid {
        var packet := Block(packOffset, packSize);
        packOffset := curOffset;
        inHand := packSize;
        packSize := 0;
        AddCompletedGSPacket(packet);
      }
    }
  }
}
