/** The data cache of the EE: two ways, 64 sets, write-back, tagged by physical address.  The
    specification is flat memory.  Memory is counted in lines of 64 bytes, 64 of them to a page. */
module DataCache {
  type Byte = x: int | 0 <= x < 256

  const LINE := 64
  const SETS := 64

  function Zeros(n: nat): (s: seq<Byte>)
    ensures |s| == n
  {
    if n == 0 then [] else [0] + Zeros(n - 1)
  }

  /** 64 bytes. */
  type Block = b: seq<Byte> | |b| == LINE witness Zeros(LINE)

  /** A line of one way: `page` is the physical page in its tag. */
  datatype Line = Line(page: nat, valid: bool, dirty: bool, lrf: bool, locked: bool, data: Block) {
    predicate Matches(p: nat) { valid && page == p }
  }

  /** Line (set, way) is at 2 * set + way.  `fills` is the history of loads into the cache. */
  datatype Cache = Cache(lines: seq<Line>, mem: seq<Block>, fills: seq<(nat, nat)>)

  function Index(s: nat, way: nat): nat { 2 * s + way }

  /** The number of a line in memory. */
  function Place(page: nat, s: nat): nat { page * SETS + s }

  predicate Shape(c: Cache) { |c.lines| == 2 * SETS }

  // ---- what a program sees ----

  /** Line p of memory: from the way that holds it, or from memory. */
  function Seen(c: Cache, p: nat): Block
    requires p < |c.mem| && Shape(c)
  {
    var s := p % SETS;
    if c.lines[Index(s, 0)].Matches(p / SETS) then c.lines[Index(s, 0)].data
    else if c.lines[Index(s, 1)].Matches(p / SETS) then c.lines[Index(s, 1)].data
    else c.mem[p]
  }

  /** The flat memory. */
  function Flat(c: Cache): (f: seq<Block>)
    requires Shape(c)
    ensures |f| == |c.mem| && forall p :: 0 <= p < |f| ==> f[p] == Seen(c, p)
  {
    seq(|c.mem|, p requires 0 <= p < |c.mem| => Seen(c, p))
  }

  /** The way of set s that was filled longest ago. */
  function LeastRecent(fills: seq<(nat, nat)>, s: nat): nat {
    if fills == [] then 0
    else
      var last := fills[|fills| - 1];
      if last.0 == s then if last.1 == 0 then 1 else 0 else LeastRecent(fills[..|fills| - 1], s)
  }

  /** The way that `getFreeCache` replaces. */
  function Victim(c: Cache, s: nat): (way: nat)
    requires Shape(c) && s < SETS
    ensures way < 2
  {
    if c.lines[Index(s, 0)].lrf != c.lines[Index(s, 1)].lrf then 1 else 0
  }

  /** A valid line is in memory, its two ways differ, and if it is clean it agrees with memory. */
  ghost predicate LineOk(c: Cache, s: nat, way: nat)
    requires Shape(c) && s < SETS && way < 2
  {
    var l := c.lines[Index(s, way)];
    l.valid ==>
      && Place(l.page, s) < |c.mem|
      && !c.lines[Index(s, 1 - way)].Matches(l.page)
      && (!l.dirty ==> l.data == c.mem[Place(l.page, s)])
  }

  ghost predicate Inv(c: Cache) {
    && Shape(c)
    && (forall s, way :: 0 <= s < SETS && 0 <= way < 2 ==> LineOk(c, s, way))
    && (forall s :: 0 <= s < SETS ==> Victim(c, s) == LeastRecent(c.fills, s))
  }

  // ---- the operations on one line ----

  function Changed(c: Cache, s: nat, way: nat, l: Line): Cache
    requires Shape(c) && s < SETS && way < 2
  {
    c.(lines := c.lines[Index(s, way) := l])
  }

  /** `writeBackIfNeeded`. */
  function WriteBack(c: Cache, s: nat, way: nat): Cache
    requires Shape(c) && s < SETS && way < 2
  {
    var l := c.lines[Index(s, way)];
    var p := Place(l.page, s);
    if l.valid && l.dirty && p < |c.mem| then Changed(c.(mem := c.mem[p := l.data]), s, way, l.(dirty := false)) else c
  }

  /** `load`, and the change of the LRF bit. */
  function Load(c: Cache, s: nat, way: nat, page: nat): Cache
    requires Shape(c) && s < SETS && way < 2 && Place(page, s) < |c.mem|
  {
    var l := c.lines[Index(s, way)];
    Changed(c, s, way, l.(page := page, data := c.mem[Place(page, s)], valid := true, dirty := false, lrf := !l.lrf))
      .(fills := c.fills + [(s, way)])
  }

  /** `clear`: only the LRF bit stays. */
  function Clear(c: Cache, s: nat, way: nat): Cache
    requires Shape(c) && s < SETS && way < 2
  {
    Changed(c, s, way, Line(0, false, false, c.lines[Index(s, way)].lrf, false, Zeros(LINE)))
  }

  function Patched(b: Block, off: nat, v: seq<Byte>): Block
    requires off + |v| <= LINE
  {
    b[..off] + v + b[off + |v|..]
  }

  /** Bytes written into a line, which becomes dirty. */
  function Store(c: Cache, s: nat, way: nat, off: nat, v: seq<Byte>): Cache
    requires Shape(c) && s < SETS && way < 2 && off + |v| <= LINE
  {
    var l := c.lines[Index(s, way)];
    Changed(c, s, way, l.(dirty := true, data := Patched(l.data, off, v)))
  }

  /** What one operation on line (s, way) may change: nothing else in the cache, and in memory only the
      line's own place. */
  ghost predicate Local(c: Cache, d: Cache, s: nat, way: nat)
    requires Shape(c) && s < SETS && way < 2
  {
    && Shape(d) && |d.mem| == |c.mem|
    && d.lines == c.lines[Index(s, way) := d.lines[Index(s, way)]]
    && (forall p :: 0 <= p < |c.mem| && p % SETS != s ==> d.mem[p] == c.mem[p])
  }

  /** Then only the two lines of set s, and their places, need a check. */
  lemma LocalKeeps(c: Cache, d: Cache, s: nat, way: nat)
    requires Inv(c) && s < SETS && way < 2 && Local(c, d, s, way)
    requires LineOk(d, s, 0) && LineOk(d, s, 1)
    requires Victim(d, s) == LeastRecent(d.fills, s)
    requires d.fills == c.fills || d.fills == c.fills + [(s, way)]
    ensures Inv(d)
    ensures forall p :: 0 <= p < |c.mem| && p % SETS != s ==> Flat(d)[p] == Flat(c)[p]
  {
    forall t, w | 0 <= t < SETS && 0 <= w < 2 ensures LineOk(d, t, w) {
      assert LineOk(c, t, w);
      if t != s { PlaceParts(d.lines[Index(t, w)].page, t); }
    }
    forall t | 0 <= t < SETS ensures Victim(d, t) == LeastRecent(d.fills, t) {
      if t != s {
        assert Victim(d, t) == Victim(c, t);
        assert (c.fills + [(s, way)])[..|c.fills|] == c.fills;
      }
    }
  }

  lemma PlaceParts(page: nat, s: nat)
    requires s < SETS
    ensures Place(page, s) % SETS == s && Place(page, s) / SETS == page
  {}

  lemma WriteBackLines(c: Cache, s: nat, way: nat)
    requires Inv(c) && s < SETS && way < 2
    ensures var d := WriteBack(c, s, way); var l := c.lines[Index(s, way)];
            && LineOk(d, s, 0) && LineOk(d, s, 1) && Victim(d, s) == Victim(c, s) && d.fills == c.fills && Local(c, d, s, way)
            && d.lines[Index(s, way)] == if l.valid then l.(dirty := false) else l
    ensures var d := WriteBack(c, s, way);
            forall p :: 0 <= p < |c.mem| && p % SETS == s ==> Seen(d, p) == Seen(c, p)
  {
    hide LeastRecent;
    var l := c.lines[Index(s, way)];
    assert LineOk(c, s, 0) && LineOk(c, s, 1);
    PlaceParts(l.page, s);
    PlaceParts(c.lines[Index(s, 1 - way)].page, s);
    forall p | 0 <= p < |c.mem| && p % SETS == s ensures Seen(WriteBack(c, s, way), p) == Seen(c, p) {
      assert Place(p / SETS, s) == p;
    }
  }

  lemma WriteBackKeeps(c: Cache, s: nat, way: nat)
    requires Inv(c) && s < SETS && way < 2
    ensures var d := WriteBack(c, s, way); var l := c.lines[Index(s, way)];
            && Inv(d) && Flat(d) == Flat(c) && d.fills == c.fills && Local(c, d, s, way)
            && d.lines[Index(s, way)] == if l.valid then l.(dirty := false) else l
  {
    hide LineOk, Seen, WriteBack, Victim, LeastRecent;
    WriteBackLines(c, s, way);
    LocalKeeps(c, WriteBack(c, s, way), s, way);
  }

  /** A line that holds nothing unsaved may be filled with a page the set does not hold. */
  lemma LoadKeeps(c: Cache, s: nat, page: nat)
    requires Inv(c) && s < SETS && Place(page, s) < |c.mem|
    requires var l := c.lines[Index(s, Victim(c, s))]; !(l.valid && l.dirty)
    requires !c.lines[Index(s, 0)].Matches(page) && !c.lines[Index(s, 1)].Matches(page)
    ensures var way := Victim(c, s); var d := Load(c, s, way, page);
            && Inv(d) && Flat(d) == Flat(c) && d.lines[Index(s, way)].Matches(page)
            && d.fills == c.fills + [(s, way)] && Victim(d, s) == 1 - way
  {
    hide LineOk, Seen, Load, Victim, LeastRecent;
    var way := Victim(c, s);
    var d := Load(c, s, way, page);
    LoadLines(c, s, page);
    LocalKeeps(c, d, s, way);
    forall p | 0 <= p < |c.mem| && p % SETS == s ensures Flat(d)[p] == Flat(c)[p] { LoadSeen(c, s, page, p); }
  }

  lemma LoadLines(c: Cache, s: nat, page: nat)
    requires Inv(c) && s < SETS && Place(page, s) < |c.mem|
    requires !c.lines[Index(s, 0)].Matches(page) && !c.lines[Index(s, 1)].Matches(page)
    ensures var way := Victim(c, s); var d := Load(c, s, way, page);
            && LineOk(d, s, 0) && LineOk(d, s, 1) && Victim(d, s) == 1 - way == LeastRecent(d.fills, s)
            && d.fills == c.fills + [(s, way)] && Local(c, d, s, way) && d.lines[Index(s, way)].Matches(page)
  {
    assert LineOk(c, s, 0) && LineOk(c, s, 1);
  }

  lemma LoadSeen(c: Cache, s: nat, page: nat, p: nat)
    requires Inv(c) && s < SETS && Place(page, s) < |c.mem| && p < |c.mem| && p % SETS == s
    requires var l := c.lines[Index(s, Victim(c, s))]; !(l.valid && l.dirty)
    requires !c.lines[Index(s, 0)].Matches(page) && !c.lines[Index(s, 1)].Matches(page)
    ensures Seen(Load(c, s, Victim(c, s), page), p) == Seen(c, p)
  {
    hide LeastRecent;
    assert LineOk(c, s, 0) && LineOk(c, s, 1);
    assert Place(p / SETS, s) == p;
  }

  /** Writing into a line that holds a page writes the flat memory there. */
  lemma StoreKeeps(c: Cache, s: nat, way: nat, page: nat, off: nat, v: seq<Byte>)
    requires Inv(c) && s < SETS && way < 2 && off + |v| <= LINE && c.lines[Index(s, way)].Matches(page)
    ensures var d := Store(c, s, way, off, v); var p := Place(page, s);
            Inv(d) && p < |c.mem| && Flat(d) == Flat(c)[p := Patched(Flat(c)[p], off, v)] && d.fills == c.fills
  {
    var d := Store(c, s, way, off, v);
    var p := Place(page, s);
    assert LineOk(c, s, 0) && LineOk(c, s, 1);
    PlaceParts(page, s);
    PlaceParts(c.lines[Index(s, 1 - way)].page, s);
    LocalKeeps(c, d, s, way);
    forall q | 0 <= q < |c.mem| && q % SETS == s ensures Flat(d)[q] == if q == p then Patched(Flat(c)[p], off, v) else Flat(c)[q] {
      assert Place(q / SETS, s) == q;
    }
  }

  /** Throwing a line away shows what memory holds there, and changes nothing else.  If the line was not
      valid, or was saved before, nothing changes at all. */
  lemma ClearKeeps(c: Cache, s: nat, way: nat)
    requires Inv(c) && s < SETS && way < 2
    ensures var d := Clear(c, s, way); var l := c.lines[Index(s, way)];
            && Inv(d) && d.fills == c.fills && d.mem == c.mem
            && (l.valid ==> Place(l.page, s) < |c.mem|)
            && Flat(d) == (if l.valid then Flat(c)[Place(l.page, s) := c.mem[Place(l.page, s)]] else Flat(c))
            && (!(l.valid && l.dirty) ==> Flat(d) == Flat(c))
  {
    hide LineOk, Seen, Clear, Victim, LeastRecent;
    var d := Clear(c, s, way);
    var l := c.lines[Index(s, way)];
    ClearLines(c, s, way);
    LocalKeeps(c, d, s, way);
    if l.valid { PlaceParts(l.page, s); }
    forall q | 0 <= q < |c.mem| && q % SETS == s
      ensures Flat(d)[q] == if l.valid && q == Place(l.page, s) then c.mem[q] else Flat(c)[q]
      ensures !(l.valid && l.dirty) ==> Flat(d)[q] == Flat(c)[q]
    {
      ClearSeen(c, s, way, q);
    }
  }

  lemma ClearLines(c: Cache, s: nat, way: nat)
    requires Inv(c) && s < SETS && way < 2
    ensures var d := Clear(c, s, way); var l := c.lines[Index(s, way)];
            && LineOk(d, s, 0) && LineOk(d, s, 1) && Victim(d, s) == Victim(c, s) == LeastRecent(c.fills, s)
            && d.fills == c.fills && d.mem == c.mem && Local(c, d, s, way)
            && (l.valid ==> Place(l.page, s) < |c.mem|)
  {
    hide LeastRecent;
    assert LineOk(c, s, 0) && LineOk(c, s, 1);
  }

  lemma ClearSeen(c: Cache, s: nat, way: nat, q: nat)
    requires Inv(c) && s < SETS && way < 2 && q < |c.mem| && q % SETS == s
    ensures var l := c.lines[Index(s, way)];
            && Seen(Clear(c, s, way), q) == (if l.valid && q == Place(l.page, s) then c.mem[q] else Seen(c, q))
            && (!(l.valid && l.dirty) ==> Seen(Clear(c, s, way), q) == Seen(c, q))
  {
    hide LeastRecent, Victim;
    assert LineOk(c, s, 0) && LineOk(c, s, 1);
    assert Place(q / SETS, s) == q;
  }

  // ---- whole operations ----

  /** `findInCache`. */
  function Find(c: Cache, s: nat, page: nat): (way: int)
    requires Shape(c) && s < SETS
    ensures -1 <= way < 2 && (way >= 0 ==> c.lines[Index(s, way)].Matches(page))
    ensures way == -1 <==> !c.lines[Index(s, 0)].Matches(page) && !c.lines[Index(s, 1)].Matches(page)
  {
    if c.lines[Index(s, 0)].Matches(page) then 0 else if c.lines[Index(s, 1)].Matches(page) then 1 else -1
  }

  datatype Got = Got(cache: Cache, way: nat)

  /** `getFreeCache`: the way that holds the page, after loading it if need be. */
  function GetFree(c: Cache, s: nat, page: nat): (g: Got)
    requires Shape(c) && s < SETS && Place(page, s) < |c.mem|
    ensures g.way < 2 && Shape(g.cache)
  {
    var way := Find(c, s, page);
    if way >= 0 then Got(c, way)
    else Got(Load(WriteBack(c, s, Victim(c, s)), s, Victim(c, s), page), Victim(c, s))
  }

  /** Bringing a page in changes no byte that a program sees, and what it replaces is the way that was
      filled longest ago. */
  lemma GetFreeKeeps(c: Cache, s: nat, page: nat)
    requires Inv(c) && s < SETS && Place(page, s) < |c.mem|
    ensures var g := GetFree(c, s, page);
            && Inv(g.cache) && Flat(g.cache) == Flat(c) && g.cache.lines[Index(s, g.way)].Matches(page)
            && (if Find(c, s, page) >= 0 then g.cache == c
                else g.cache.fills == c.fills + [(s, LeastRecent(c.fills, s))])
  {
    hide LineOk, Seen;
    if Find(c, s, page) < 0 {
      var v := Victim(c, s);
      WriteBackKeeps(c, s, v);
      var d := WriteBack(c, s, v);
      assert Victim(d, s) == v by { SameVictim(c, d, s); }
      assert d.lines[Index(s, 1 - v)] == c.lines[Index(s, 1 - v)];
      LoadKeeps(d, s, page);
    }
  }

  lemma SameVictim(c: Cache, d: Cache, s: nat)
    requires Inv(c) && Inv(d) && c.fills == d.fills && s < SETS
    ensures Victim(c, s) == Victim(d, s)
  {}

  /** Virtual to physical pages. */
  type PageMap = nat -> nat

  function SetOf(addr: nat): nat { addr / LINE % SETS }

  /** The line of memory that a virtual address leads to: translation keeps the low 12 bits. */
  function Target(vmap: PageMap, addr: nat): nat { Place(vmap(addr / (LINE * SETS)), SetOf(addr)) }

  /** The sizes of accesses. */
  predicate AccessSize(n: nat) { n == 1 || n == 2 || n == 4 || n == 8 || n == 16 }

  /** Accesses are aligned down to their size. */
  function Offset(addr: nat, n: nat): nat
    requires n > 0
  {
    addr % LINE - addr % LINE % n
  }

  lemma OffsetFits(addr: nat, n: nat)
    requires AccessSize(n)
    ensures 0 <= Offset(addr, n) && Offset(addr, n) + n <= LINE
  {}

  datatype Op =
    | Read(addr: nat, size: nat) | Write(addr: nat, bytes: seq<Byte>)
    | DHWBIN(addr: nat) | DHWOIN(addr: nat) | DXWBIN(addr: nat) | DXLTG(addr: nat)

  predicate Legal(op: Op, vmap: PageMap, lines: nat) {
    && (op.Read? ==> AccessSize(op.size) && Target(vmap, op.addr) < lines)
    && (op.Write? ==> AccessSize(|op.bytes|) && Target(vmap, op.addr) < lines)
  }

  datatype Done<T> = Done(it: T, result: seq<Byte>)

  /** What the cache does for one operation. */
  function Step(c: Cache, op: Op, vmap: PageMap): (d: Done<Cache>)
    requires Shape(c) && Legal(op, vmap, |c.mem|)
  {
    var s := SetOf(op.addr);
    var page := vmap(op.addr / (LINE * SETS));
    match op
    case Read(addr, n) =>
      OffsetFits(addr, n);
      var g := GetFree(c, s, page);
      Done(g.cache, g.cache.lines[Index(s, g.way)].data[Offset(addr, n)..Offset(addr, n) + n])
    case Write(addr, bytes) =>
      OffsetFits(addr, |bytes|);
      var g := GetFree(c, s, page);
      Done(Store(g.cache, s, g.way, Offset(addr, |bytes|), bytes), [])
    case DHWBIN(_) =>
      var way := Find(c, s, page);
      if way < 0 then Done(c, []) else Done(Clear(WriteBack(c, s, way), s, way), [])
    case DHWOIN(_) =>
      var way := Find(c, s, page);
      if way < 0 then Done(c, []) else Done(WriteBack(c, s, way), [])
    case DXWBIN(addr) => Done(Clear(WriteBack(c, s, addr % 2), s, addr % 2), [])
    case DXLTG(addr) => Done(WriteBack(c, s, addr % 2), [])
  }

  /** What it should do: memory without a cache. */
  function FlatStep(f: seq<Block>, op: Op, vmap: PageMap): Done<seq<Block>>
    requires Legal(op, vmap, |f|)
  {
    match op
    case Read(addr, n) =>
      OffsetFits(addr, n);
      Done(f, f[Target(vmap, addr)][Offset(addr, n)..Offset(addr, n) + n])
    case Write(addr, bytes) =>
      OffsetFits(addr, |bytes|);
      var p := Target(vmap, addr);
      Done(f[p := Patched(f[p], Offset(addr, |bytes|), bytes)], [])
    case _ => Done(f, [])
  }

  lemma SeenThrough(c: Cache, s: nat, way: nat, page: nat)
    requires Inv(c) && s < SETS && way < 2 && c.lines[Index(s, way)].Matches(page)
    ensures Place(page, s) < |c.mem| && Flat(c)[Place(page, s)] == c.lines[Index(s, way)].data
  {
    assert LineOk(c, s, 0) && LineOk(c, s, 1);
    PlaceParts(page, s);
  }

  /** One operation of the cache is one operation on flat memory, with the same result. */
  lemma StepIsFlat(c: Cache, op: Op, vmap: PageMap)
    requires Inv(c) && Legal(op, vmap, |c.mem|)
    ensures var d := Step(c, op, vmap);
            && Inv(d.it) && |d.it.mem| == |c.mem|
            && FlatStep(Flat(c), op, vmap) == Done(Flat(d.it), d.result)
  {
    hide LineOk, Seen, WriteBack, Clear, Load, Store, Victim;
    var s := SetOf(op.addr);
    var page := vmap(op.addr / (LINE * SETS));
    match op
    case Read(addr, n) =>
      GetFreeKeeps(c, s, page);
      var g := GetFree(c, s, page);
      SeenThrough(g.cache, s, g.way, page);
    case Write(addr, bytes) =>
      GetFreeKeeps(c, s, page);
      var g := GetFree(c, s, page);
      OffsetFits(addr, |bytes|);
      StoreKeeps(g.cache, s, g.way, page, Offset(addr, |bytes|), bytes);
    case DHWBIN(_) =>
      var way := Find(c, s, page);
      if way >= 0 { WriteBackKeeps(c, s, way); ClearKeeps(WriteBack(c, s, way), s, way); }
    case DHWOIN(_) =>
      var way := Find(c, s, page);
      if way >= 0 { WriteBackKeeps(c, s, way); }
    case DXWBIN(addr) =>
      WriteBackKeeps(c, s, addr % 2);
      ClearKeeps(WriteBack(c, s, addr % 2), s, addr % 2);
    case DXLTG(addr) => WriteBackKeeps(c, s, addr % 2);
  }

  // ---- whole runs ----

  const NO_LINE := Line(0, false, false, false, false, Zeros(LINE))

  /** `resetCache`. */
  function Reset(mem: seq<Block>): (c: Cache)
    ensures Shape(c)
  {
    Cache(seq(2 * SETS, i => NO_LINE), mem, [])
  }

  lemma ResetOk(mem: seq<Block>)
    ensures Inv(Reset(mem)) && Flat(Reset(mem)) == mem
  {}

  predicate LegalRun(run: seq<Op>, vmap: PageMap, lines: nat) {
    forall k :: 0 <= k < |run| ==> Legal(run[k], vmap, lines)
  }

  datatype Outcome<T> = Outcome(it: T, results: seq<seq<Byte>>)

  ghost function Steps(c: Cache, run: seq<Op>, vmap: PageMap): (o: Outcome<Cache>)
    requires Inv(c) && LegalRun(run, vmap, |c.mem|)
    ensures Inv(o.it) && |o.it.mem| == |c.mem|
    decreases |run|
  {
    if run == [] then Outcome(c, [])
    else
      var o := Steps(c, run[..|run| - 1], vmap);
      var op := run[|run| - 1];
      StepIsFlat(o.it, op, vmap);
      var d := Step(o.it, op, vmap);
      Outcome(d.it, o.results + [d.result])
  }

  function FlatSteps(f: seq<Block>, run: seq<Op>, vmap: PageMap): (o: Outcome<seq<Block>>)
    requires LegalRun(run, vmap, |f|)
    ensures |o.it| == |f|
    decreases |run|
  {
    if run == [] then Outcome(f, [])
    else
      var o := FlatSteps(f, run[..|run| - 1], vmap);
      var d := FlatStep(o.it, run[|run| - 1], vmap);
      Outcome(d.it, o.results + [d.result])
  }

  /** The cache refines flat memory: from any state it can be in, every run of reads, writes and
      write-backs, through whatever virtual addresses, gives the results that memory without a cache
      gives, and leaves the memory that a program sees the same. */
  lemma {:induction false} CacheRefinesFlat(c: Cache, run: seq<Op>, vmap: PageMap)
    requires Inv(c) && LegalRun(run, vmap, |c.mem|)
    ensures var o := Steps(c, run, vmap);
            FlatSteps(Flat(c), run, vmap) == Outcome(Flat(o.it), o.results)
    decreases |run|
  {
    hide Inv, Step, FlatStep, Legal;
    if run != [] {
      CacheRefinesFlat(c, run[..|run| - 1], vmap);
      StepIsFlat(Steps(c, run[..|run| - 1], vmap).it, run[|run| - 1], vmap);
    }
  }

  // ---- in place ----

  class Dcache {
    const lines: array<Line>
    const mem: array<Block>
    const vmap: PageMap
    ghost var fills: seq<(nat, nat)>

    ghost function View(): Cache
      reads this, lines, mem
    {
      Cache(lines[..], mem[..], fills)
    }

    ghost predicate Valid()
      reads this, lines, mem
    {
      lines.Length == 2 * SETS && Inv(View())
    }

    constructor (mem: array<Block>, vmap: PageMap)
      ensures Valid() && this.mem == mem && this.vmap == vmap && fresh(lines) && Flat(View()) == mem[..]
    {
      lines := new Line[2 * SETS](_ => NO_LINE);
      this.mem, this.vmap := mem, vmap;
      fills := [];
      new;
      assert lines[..] == Reset(mem[..]).lines;
      ResetOk(mem[..]);
    }

    method WriteBackIfNeeded(s: nat, way: nat)
      requires Valid() && s < SETS && way < 2
      modifies lines, mem
      ensures View() == WriteBack(old(View()), s, way)
    {
      var l := lines[Index(s, way)];
      assert LineOk(View(), s, way);
      if !l.valid || !l.dirty { return; }
      mem[Place(l.page, s)] := l.data;
      lines[Index(s, way)] := l.(dirty := false);
    }

    method LoadLine(s: nat, way: nat, page: nat)
      requires lines.Length == 2 * SETS && s < SETS && way < 2 && Place(page, s) < mem.Length
      modifies lines, `fills
      ensures View() == Load(old(View()), s, way, page)
    {
      var l := lines[Index(s, way)];
      lines[Index(s, way)] := l.(page := page, data := mem[Place(page, s)], valid := true, dirty := false, lrf := !l.lrf);
      fills := fills + [(s, way)];
    }

    method ClearLine(s: nat, way: nat)
      requires lines.Length == 2 * SETS && s < SETS && way < 2
      modifies lines
      ensures View() == Clear(old(View()), s, way)
    {
      lines[Index(s, way)] := Line(0, false, false, lines[Index(s, way)].lrf, false, Zeros(LINE));
    }

    method FindInCache(s: nat, page: nat) returns (way: int)
      requires lines.Length == 2 * SETS && s < SETS
      ensures way == Find(View(), s, page)
    {
      way := -1;
      if lines[Index(s, 0)].Matches(page) { way := 0; } else if lines[Index(s, 1)].Matches(page) { way := 1; }
    }

    /** `getFreeCache`: nothing a program sees changes, and the way found holds the page. */
    method GetFreeCache(addr: nat) returns (s: nat, way: nat)
      requires Valid() && Target(vmap, addr) < mem.Length
      modifies lines, mem, `fills
      ensures Valid() && s == SetOf(addr) && way < 2 && Flat(View()) == old(Flat(View()))
      ensures Got(View(), way) == GetFree(old(View()), s, vmap(addr / (LINE * SETS)))
      ensures lines[Index(s, way)].Matches(vmap(addr / (LINE * SETS)))
    {
      hide Seen, LineOk, Inv;
      s := SetOf(addr);
      var page := vmap(addr / (LINE * SETS));
      GetFreeKeeps(View(), s, page);
      var found := FindInCache(s, page);
      if found >= 0 {
        way := found;
      } else {
        way := if lines[Index(s, 0)].lrf != lines[Index(s, 1)].lrf then 1 else 0;
        WriteBackIfNeeded(s, way);
        LoadLine(s, way, page);
      }
    }

    /** `readCache`: the bytes are those of flat memory. */
    method ReadCache(addr: nat, n: nat) returns (v: seq<Byte>)
      requires Valid() && Legal(Read(addr, n), vmap, mem.Length)
      modifies lines, mem, `fills
      ensures Valid() && FlatStep(old(Flat(View())), Read(addr, n), vmap) == Done(Flat(View()), v)
    {
      hide Seen, LineOk, Inv, GetFree;
      OffsetFits(addr, n);
      var s, way := GetFreeCache(addr);
      SeenThrough(View(), s, way, vmap(addr / (LINE * SETS)));
      v := lines[Index(s, way)].data[Offset(addr, n)..Offset(addr, n) + n];
    }

    /** `writeCache`: flat memory changes where the program wrote. */
    method WriteCache(addr: nat, v: seq<Byte>)
      requires Valid() && Legal(Write(addr, v), vmap, mem.Length)
      modifies lines, mem, `fills
      ensures Valid() && FlatStep(old(Flat(View())), Write(addr, v), vmap) == Done(Flat(View()), [])
    {
      hide Seen, LineOk, Inv, GetFree;
      OffsetFits(addr, |v|);
      var s, way := GetFreeCache(addr);
      StoreKeeps(View(), s, way, vmap(addr / (LINE * SETS)), Offset(addr, |v|), v);
      var l := lines[Index(s, way)];
      lines[Index(s, way)] := l.(dirty := true, data := Patched(l.data, Offset(addr, |v|), v));
      assert View() == Store(old(GetFree(View(), s, vmap(addr / (LINE * SETS)))).cache, s, way, Offset(addr, |v|), v);
    }

    /** DHWBIN (`invalidate`) and DHWOIN: nothing a program sees changes. */
    method HitWriteBack(addr: nat, invalidate: bool)
      requires Valid()
      modifies lines, mem
      ensures Valid() && Flat(View()) == old(Flat(View()))
      ensures View() == Step(old(View()), if invalidate then DHWBIN(addr) else DHWOIN(addr), vmap).it
    {
      hide Seen, LineOk;
      StepIsFlat(View(), if invalidate then DHWBIN(addr) else DHWOIN(addr), vmap);
      var s := SetOf(addr);
      var way := FindInCache(s, vmap(addr / (LINE * SETS)));
      if way < 0 { return; }
      WriteBackIfNeeded(s, way);
      if invalidate { ClearLine(s, way); }
    }

    /** DXWBIN (`invalidate`) and DXLTG: nothing a program sees changes. */
    method IndexWriteBack(addr: nat, invalidate: bool)
      requires Valid()
      modifies lines, mem
      ensures Valid() && Flat(View()) == old(Flat(View()))
      ensures View() == Step(old(View()), if invalidate then DXWBIN(addr) else DXLTG(addr), vmap).it
    {
      hide Seen, LineOk;
      StepIsFlat(View(), if invalidate then DXWBIN(addr) else DXLTG(addr), vmap);
      WriteBackIfNeeded(SetOf(addr), addr % 2);
      if invalidate { ClearLine(SetOf(addr), addr % 2); }
    }

    /** DHIN: what the line held is discarded, and the program sees memory there instead. */
    method HitInvalidate(addr: nat)
      requires Valid()
      modifies lines
      ensures Valid() && mem[..] == old(mem[..])
      ensures var p := Target(vmap, addr);
              if old(Find(View(), SetOf(addr), vmap(addr / (LINE * SETS)))) < 0 then Flat(View()) == old(Flat(View()))
              else p < mem.Length && Flat(View()) == old(Flat(View()))[p := mem[p]]
    {
      hide Seen, LineOk;
      var s := SetOf(addr);
      var way := FindInCache(s, vmap(addr / (LINE * SETS)));
      if way < 0 { return; }
      ClearKeeps(View(), s, way);
      ClearLine(s, way);
    }
  }
}
