/** The GIF unit: three paths share one way to the GS, and `Execute` decides whose turn it is.  Each
    path is taken as its parser sees it (`GifPath.View`). */
module GifUnit {
  import opened GifTag
  import opened GifParser
  import opened GifEnds

  /** What reaches the MTGS queue, with the reason: an EOP, the end of the data of a packet without
      EOP, a path-3 image slice (with no bytes if there is nothing to queue), or a packet that the
      MTVU thread completes later. */
  datatype Event =
    | Complete(path: nat, bytes: seq<Quad>)
    | Piece(path: nat, bytes: seq<Quad>)
    | Slice(bytes: seq<Quad>)
    | Fake

  function Owner(e: Event): nat {
    if e.Complete? || e.Piece? then e.path else if e.Slice? then 2 else 0
  }

  function BytesOf(e: Event): seq<Quad> { if e.Fake? then [] else e.bytes }

  /** The bytes handed over for path i. */
  function SentOn(trace: seq<Event>, i: nat): seq<Quad> {
    if trace == [] then []
    else SentOn(trace[..|trace| - 1], i) + if Owner(trace[|trace| - 1]) == i then BytesOf(trace[|trace| - 1]) else []
  }

  function Fakes(trace: seq<Event>): nat {
    if trace == [] then 0 else Fakes(trace[..|trace| - 1]) + if trace[|trace| - 1].Fake? then 1 else 0
  }

  /** Where the packets of path i that were handed over as complete end in its bytes. */
  function Marks(trace: seq<Event>, i: nat): seq<nat> {
    if trace == [] then []
    else
      var e := trace[|trace| - 1];
      Marks(trace[..|trace| - 1], i) + if e.Complete? && e.path == i then [|SentOn(trace, i)|] else []
  }

  lemma TraceAppend(trace: seq<Event>, e: Event, i: nat)
    ensures Marks(trace + [e], i) == Marks(trace, i) + if e.Complete? && e.path == i then [|SentOn(trace + [e], i)|] else []
    ensures SentOn(trace + [e], i) == SentOn(trace, i) + if Owner(e) == i then BytesOf(e) else []
    ensures Fakes(trace + [e]) == Fakes(trace) + if e.Fake? then 1 else 0
  {
    assert (trace + [e])[..|trace|] == trace;
  }

  /** GIF_STAT, GIF_MODE and GIF_CTRL as the unit uses them. */
  datatype Stat = Stat(apath: nat, oph: bool, p1q: bool, p2q: bool, p3q: bool, ip3: bool,
                       imt: bool, pse: bool, dir: bool, m3r: bool, m3p: bool)

  const INIT_STAT := Stat(0, false, false, false, false, false, false, false, false, false, false)

  datatype Transfer = FifoTransfer | DmaTransfer | XgKick | MtvuKick | Direct | DirectHL

  ghost predicate PathFine(p: Path) { p.Valid() && (p.pack != [] ==> !p.AtRest()) }

  lemma TurnKeepsBusy(p: Path, gs: Handler)
    requires p.Ok() && (p.pack != [] ==> !p.AtRest())
    ensures var q := TurnOf(p, gs).path; (q.pack != [] || !p.AtRest()) ==> !q.AtRest()
  {
    hide PayloadLen, AnyAD, HandleAD, Eop, NReg, NLoop;
  }

  lemma {:induction false} ExecKeepsBusy(p: Path, gs: Handler, ctx: Ctx)
    requires p.Ok() && (p.pack != [] ==> !p.AtRest())
    ensures var r := Exec(p, gs, ctx);
            && (r.path.pack != [] ==> !r.path.AtRest())
            && (!r.done && !p.AtRest() ==> !r.path.AtRest())
    decreases Rank(p)
  {
    TurnKeepsBusy(p, gs);
    TurnKeepsOk(p, gs);
    TurnShrinks(p, gs);
    hide TurnOf;
    var t := TurnOf(p, gs);
    if t.Go? { ExecKeepsBusy(t.path, t.gs, ctx); }
  }

  lemma {:induction false} ExecCuts(p: Path, gs: Handler, ctx: Ctx)
    requires |p.tag.regs| == 16
    ensures var r := Exec(p, gs, ctx); r.done && ctx.onPath3 && ctx.masked ==> r.path.rest == []
    decreases Rank(p)
  {
    TurnShrinks(p, gs);
    var t := TurnOf(p, gs);
    hide TurnOf;
    if t.Go? { ExecCuts(t.path, t.gs, ctx); }
  }

  /** One call of the parser, as far as the arbiter is concerned. */
  lemma Parsed(p: Path, gs: Handler, ctx: Ctx)
    requires PathFine(p)
    ensures |p.tag.regs| == 16
    ensures var r := Exec(p, gs, ctx);
            && PathFine(r.path) && |r.path.rest| + |r.rewound| <= |p.rest|
            && p.pack + p.rest == (if r.done then r.packet else r.path.pack) + r.path.rest + r.rewound
            && (r.done ==> r.path.pack == [] && r.path.AtRest() && !r.path.tag.isValid && r.packet != []
                           && |r.path.rest| + |r.rewound| < |p.rest|)
            && (r.rewound != [] ==> r.done && ctx.onPath3 && ctx.masked && r.path.rest == [])
            && (!r.done && r.path.state == OnImage ==> !r.path.tag.isValid)
            && (!r.done && !p.AtRest() ==> !r.path.AtRest())
            && |r.path.tag.regs| == 16
            && (r.done && ctx.onPath3 && ctx.masked ==> r.path.rest == [])
            && (!r.done && !r.gs.queued ==> Starved(r.path))
            && (gs.queued ==> r.gs.queued)
  {
    hide Exec, Starved;
    ExecKeepsBusy(p, gs, ctx);
    ExecKeepsValid(p, gs, ctx);
    ExecConserves(p, gs, ctx);
    ExecStarves(p, gs, ctx);
    ExecCuts(p, gs, ctx);
    var r := Exec(p, gs, ctx);
    if r.done {
      assert |p.pack + p.rest| == |r.packet + r.path.rest + r.rewound|;
    }
  }

  /** Without its last n quadwords, path p holds no complete packet and no more to parse. */
  ghost predicate Lacks(p: Path, n: nat)
    requires |p.tag.regs| == 16
  {
    |p.rest| < n || Starved(p.(rest := p.rest[..|p.rest| - n]))
  }

  lemma TurnLacks(p: Path, gs: Handler, n: nat)
    requires p.Ok() && Lacks(p, n) && (p.Valid() || |p.rest| < n)
    ensures var t := TurnOf(p, gs);
            && |t.path.tag.regs| == 16 && Lacks(t.path, n)
            && (t.AtEop? ==> |t.path.rest| < n)
            && (t.Go? ==> t.path.Valid() || |t.path.rest| < n)
  {
    hide AnyAD, HandleAD, Eop, NReg, NLoop, Nibble;
    TurnKeepsOk(p, gs);
    if |p.rest| >= n && p.rest != [] && !p.tag.isValid {
      SetTagAgain(p.tag.regs, p.rest[0]);
    }
  }

  /** The parser completes no packet before it has begun to use the last n quadwords. */
  lemma {:induction false} ExecLacks(p: Path, gs: Handler, ctx: Ctx, n: nat)
    requires p.Ok() && Lacks(p, n) && (p.Valid() || |p.rest| < n)
    ensures var r := Exec(p, gs, ctx);
            && |r.path.tag.regs| == 16 && Lacks(r.path, n)
            && (r.done ==> |r.path.rest| + |r.rewound| < n)
    decreases Rank(p)
  {
    TurnLacks(p, gs, n);
    TurnKeepsOk(p, gs);
    TurnShrinks(p, gs);
    hide TurnOf;
    var t := TurnOf(p, gs);
    if t.Go? { ExecLacks(t.path, t.gs, ctx, n); }
  }

  lemma ParsedLate(p: Path, gs: Handler, ctx: Ctx, n: nat)
    requires PathFine(p) && Lacks(p, n)
    ensures |p.tag.regs| == 16
    ensures var r := Exec(p, gs, ctx);
            |r.path.tag.regs| == 16 && Lacks(r.path, n) && (r.rewound != [] ==> |r.rewound| < n)
  {
    hide Exec, Starved;
    ExecLacks(p, gs, ctx, n);
    Parsed(p, gs, ctx);
  }

  /** For each path, what was given is what was handed over, then what is pending; and the packets
      that were handed over as complete end exactly where the quadword machine finds an EOP. */
  ghost predicate Books(paths: seq<Path>, given: seq<seq<Quad>>, trace: seq<Event>) {
    && |paths| == 3 && |given| == 3
    && forall i :: 0 <= i < 3 ==> PathFine(paths[i]) && Booked(paths[i], given[i], SentOn(trace, i), Marks(trace, i))
  }

  ghost predicate Booked(p: Path, given: seq<Quad>, sent: seq<Quad>, marks: seq<nat>) {
    given == sent + p.pack + p.rest && ReadsTo(p, sent + p.pack, marks)
  }

  /** One call of the parser on one path. */
  lemma ParseBooked(p: Path, given: seq<Quad>, sent: seq<Quad>, marks: seq<nat>, gs: Handler, ctx: Ctx)
    requires PathFine(p) && Booked(p, given, sent, marks)
    ensures |p.tag.regs| == 16
    ensures var r := Exec(p, gs, ctx); var n := |given| - |r.rewound|;
            && n >= 0 && PathFine(r.path)
            && (r.done ==> Booked(r.path, given[..n], sent + r.packet, marks + [|sent + r.packet|]))
            && (!r.done ==> r.rewound == [] && Booked(r.path, given, sent, marks))
  {
    hide Exec, PathFine, ReadsTo;
    Parsed(p, gs, ctx);
    assert p.Valid() by { FineValid(p); }
    ExecReadsTo(p, gs, ctx, sent, marks);
    var r := Exec(p, gs, ctx);
    var grown := if r.done then r.packet else r.path.pack;
    assert sent + p.pack + p.rest == sent + (p.pack + p.rest);
    assert given == (sent + grown + r.path.rest) + r.rewound;
    assert sent + r.packet + [] == sent + r.packet;
  }

  lemma FineValid(p: Path)
    requires PathFine(p)
    ensures p.Valid()
  {}

  /** An entry for path i changes the accounts of path i only. */
  lemma BooksStep(paths: seq<Path>, given: seq<seq<Quad>>, trace: seq<Event>, i: nat, e: Event, q: Path, had: seq<Quad>)
    requires Books(paths, given, trace) && i < 3 && Owner(e) == i && PathFine(q)
    requires Booked(q, had, SentOn(trace, i) + BytesOf(e),
                    Marks(trace, i) + if e.Complete? then [|SentOn(trace, i) + BytesOf(e)|] else [])
    ensures Books(paths[i := q], given[i := had], trace + [e])
  {
    hide SentOn, PathFine, Booked, Marks;
    forall j | 0 <= j < 3
      ensures PathFine(paths[i := q][j])
      ensures Booked(paths[i := q][j], given[i := had][j], SentOn(trace + [e], j), Marks(trace + [e], j))
    {
      TraceAppend(trace, e, j);
      assert SentOn(trace, j) + [] == SentOn(trace, j) && Marks(trace, j) + [] == Marks(trace, j);
    }
  }

  lemma BooksFine(paths: seq<Path>, given: seq<seq<Quad>>, trace: seq<Event>, i: nat)
    requires Books(paths, given, trace) && i < 3
    ensures PathFine(paths[i])
  {}

  lemma BooksParse(paths: seq<Path>, given: seq<seq<Quad>>, trace: seq<Event>, i: nat, gs: Handler, ctx: Ctx)
    requires Books(paths, given, trace) && i < 3
    ensures |paths[i].tag.regs| == 16
    ensures var r := Exec(paths[i], gs, ctx); var n := |given[i]| - |r.rewound|;
            && n >= 0
            && (r.done ==> Books(paths[i := r.path], given[i := given[i][..n]], trace + [Complete(i, r.packet)]))
            && (!r.done ==> r.rewound == [] && Books(paths[i := r.path], given, trace))
  {
    hide Exec, SentOn, PathFine, Booked, Marks;
    ParseBooked(paths[i], given[i], SentOn(trace, i), Marks(trace, i), gs, ctx);
    var r := Exec(paths[i], gs, ctx);
    if r.done {
      BooksStep(paths, given, trace, i, Complete(i, r.packet), r.path, given[i][..|given[i]| - |r.rewound|]);
    }
  }

  /** The pending packet of path i is handed over without an EOP. */
  lemma BooksHand(paths: seq<Path>, given: seq<seq<Quad>>, trace: seq<Event>, i: nat, e: Event, cycles: nat)
    requires Books(paths, given, trace) && i < 3 && Owner(e) == i && (e.Piece? || e.Slice?) && BytesOf(e) == paths[i].pack
    ensures Books(paths[i := paths[i].(pack := [], cycles := cycles)], given, trace + [e])
  {
    hide SentOn, Marks, ReadsTo;
    var p := paths[i];
    var q := p.(pack := [], cycles := cycles);
    ModeReads(p, q, SentOn(trace, i) + p.pack, Marks(trace, i));
    assert SentOn(trace, i) + p.pack + [] == SentOn(trace, i) + p.pack;
    assert Marks(trace, i) + [] == Marks(trace, i);
    BooksStep(paths, given, trace, i, e, q, given[i]);
    assert given[i := given[i]] == given;
  }

  /** Only the tag counts for the machine. */
  lemma ModeReads(p: Path, q: Path, s: seq<Quad>, marks: seq<nat>)
    requires p.tag == q.tag
    ensures ReadsTo(p, s, marks) == ReadsTo(q, s, marks)
  {}

  /** An entry without bytes changes no account. */
  lemma BooksEmpty(paths: seq<Path>, given: seq<seq<Quad>>, trace: seq<Event>, e: Event)
    requires Books(paths, given, trace) && BytesOf(e) == [] && (e.Fake? || e.Slice?)
    ensures Books(paths, given, trace + [e])
  {
    hide SentOn, PathFine, Booked, Marks;
    var i := Owner(e);
    assert SentOn(trace, i) + [] == SentOn(trace, i) && Marks(trace, i) + [] == Marks(trace, i);
    BooksStep(paths, given, trace, i, e, paths[i], given[i]);
    assert given[i := given[i]] == given && paths[i := paths[i]] == paths;
  }

  lemma BooksMore(paths: seq<Path>, given: seq<seq<Quad>>, trace: seq<Event>, i: nat, data: seq<Quad>)
    requires Books(paths, given, trace) && i < 3
    ensures Books(paths[i := More(paths[i], data)], given[i := given[i] + data], trace)
  {
    hide SentOn, Marks, ReadsTo;
    var s := SentOn(trace, i) + paths[i].pack;
    ModeReads(paths[i], More(paths[i], data), s, Marks(trace, i));
    assert s + paths[i].rest + data == s + (paths[i].rest + data);
  }

  /** A packet of path 2 that ended without EOP is followed by the rest of it. */
  ghost predicate Unbroken(trace: seq<Event>) {
    forall k :: 0 < k < |trace| && trace[k - 1].Piece? && trace[k - 1].path == 1 ==> Owner(trace[k]) == 1
  }

  predicate EndsInPath2(trace: seq<Event>) {
    trace != [] && trace[|trace| - 1].Piece? && trace[|trace| - 1].path == 1
  }

  /** Between the entries that one call adds, the unit changes paths only at an EOP or a path-3
      slice, and its first entry comes from the path that was active. */
  ghost predicate Handover(was: seq<Event>, from: nat, trace: seq<Event>, to: nat) {
    && |was| <= |trace| && trace[..|was|] == was
    && (from != 0 && |was| < |trace| ==> Owner(trace[|was|]) == from - 1)
    && (from != 0 && |was| == |trace| ==> to == from)
    && (forall k :: |was| <= k < |trace| - 1 ==> !trace[k].Piece?)
    && (|was| < |trace| && trace[|trace| - 1].Piece? ==> to == Owner(trace[|trace| - 1]) + 1)
  }

  lemma HandoverStep(was: seq<Event>, from: nat, trace: seq<Event>, to: nat, e: Event)
    requires Handover(was, from, trace, to) && to == Owner(e) + 1
    requires |was| < |trace| ==> !trace[|trace| - 1].Piece?
    ensures Handover(was, from, trace + [e], to)
    ensures !e.Piece? ==> forall b :: Handover(was, from, trace + [e], b)
  {}

  lemma CompleteEnds(trace: seq<Event>, e: Event)
    requires e.Complete?
    ensures !EndsInPath2(trace + [e])
  {}

  lemma UnbrokenStep(trace: seq<Event>, e: Event)
    requires Unbroken(trace) && (EndsInPath2(trace) ==> Owner(e) == 1)
    ensures Unbroken(trace + [e])
    ensures !e.Piece? ==> !EndsInPath2(trace + [e])
  {}

  /** Path 3 gave back its last n quadwords, and nothing else happened to the accounts. */
  ghost predicate Returned(had: seq<seq<Quad>>, given: seq<seq<Quad>>, n: nat) {
    && |had| == 3 && n <= |had[2]| && given == had[2 := had[2][..|had[2]| - n]]
  }

  lemma NothingReturned(had: seq<seq<Quad>>, given: seq<seq<Quad>>)
    requires Returned(had, given, 0)
    ensures given == had
  {
    assert had[2][..|had[2]|] == had[2];
  }

  lemma ReturnedNothing(had: seq<seq<Quad>>)
    requires |had| == 3
    ensures Returned(had, had, 0)
  {
    assert had[2][..|had[2]|] == had[2];
  }

  lemma ReturnedStep(had: seq<seq<Quad>>, given: seq<seq<Quad>>, n: nat, i: nat, k: nat)
    requires Returned(had, given, n) && i < 3 && (i == 2 ==> n == 0) && (k > 0 ==> i == 2)
    requires |given| == 3 && k <= |given[i]|
    ensures Returned(had, given[i := given[i][..|given[i]| - k]], if i == 2 then k else n)
  {
    assert given[i][..|given[i]|] == given[i];
    assert had[2][..|had[2]|] == had[2];
  }

  lemma HandoverTo(was: seq<Event>, from: nat, trace: seq<Event>, to: nat)
    requires Handover(was, from, trace, to) && (from != 0 ==> |was| < |trace|)
    requires |was| < |trace| ==> !trace[|trace| - 1].Piece?
    ensures forall b :: Handover(was, from, trace, b)
  {}

  /** With MTVU the path-1 data is parsed on the other thread. */
  predicate Unused(p: Path) { p.rest == [] && p.pack == [] && p.state == Idle }

  /** No path is active. */
  function Released(s: State): State { s.(stat := s.stat.(apath := 0, oph := false)) }

  /** A queued SIGNAL becomes the pending one. */
  function Acknowledged(gs: Handler): Handler { gs.(signal := gs.queued, queued := false) }

  /** The bits that `Execute` only reads. */
  predicate SameControls(a: Stat, b: Stat) {
    a.imt == b.imt && a.pse == b.pse && a.dir == b.dir && a.m3r == b.m3r && a.m3p == b.m3p
  }

  /** What keeps path 3 from giving back more than its last n quadwords: it is not masked, or it is
      between packets and not active, or it holds no complete packet without them. */
  ghost predicate Holds(p: Path, masked: bool, active: bool, n: nat) {
    |p.tag.regs| == 16 && (!masked || (!active && p.AtRest()) || Lacks(p, n))
  }

  /** One call of the parser on path 3 gives back at most what `Holds` allows. */
  lemma ParsedHolds(p: Path, gs: Handler, masked: bool, n: nat)
    requires PathFine(p) && Holds(p, masked, true, n)
    ensures |p.tag.regs| == 16
    ensures var r := Exec(p, gs, Ctx(true, masked));
            Holds(r.path, masked, true, n) && (r.rewound != [] ==> |r.rewound| < n)
  {
    hide Lacks, PathFine;
    Parsed(p, gs, Ctx(true, masked));
    if masked { ParsedLate(p, gs, Ctx(true, masked), n); }
  }

  lemma HoldsTurn(p: Path, masked: bool, active: bool, n: nat)
    requires Holds(p, masked, active, n)
    ensures Holds(p, masked, false, n)
    ensures !(masked && p.AtRest()) ==> Holds(p, masked, true, n)
  {}

  lemma AtRestHolds(p: Path, masked: bool)
    requires |p.tag.regs| == 16 && p.AtRest()
    ensures Holds(p, masked, false, 0)
  {}

  lemma HoldsShut(p: Path, masked: bool, n: nat)
    requires Holds(p, masked, true, n)
    ensures Holds(p, masked, false, n)
    ensures var q := p.(pack := [], cycles := 0); Holds(q, masked, false, n)
  {}

  lemma HoldsPack(p: Path, masked: bool, active: bool, n: nat)
    ensures Holds(p.(pack := []), masked, active, n) == Holds(p, masked, active, n)
  {}

  lemma HoldsIdle(p: Path, masked: bool, active: bool, n: nat)
    requires p.state == Wait && Holds(p, masked, active, n)
    ensures Holds(p.(state := Idle), masked, active, n)
  {}

  lemma FinePack(p: Path)
    requires PathFine(p)
    ensures PathFine(p.(pack := []))
  {}

  lemma PackLess(p: Path)
    ensures |p.tag.regs| == 16 ==> Starved(p) == Starved(p.(pack := [])) == Starved(p.(state := Idle))
  {}

  lemma BooksIdle(paths: seq<Path>, given: seq<seq<Quad>>, trace: seq<Event>)
    requires Books(paths, given, trace) && paths[2].state == Wait
    ensures Books(paths[2 := paths[2].(state := Idle)], given, trace)
  {
    hide SentOn, Marks, ReadsTo;
    var p := paths[2];
    ModeReads(p, p.(state := Idle), SentOn(trace, 2) + p.pack, Marks(trace, 2));
  }

  lemma MoreNothing(p: Path)
    ensures More(p, []) == p
  {}

  /** The accounts in the middle of `Execute`, which was entered with accounts `had`: path 3 gave back
      its last `back` quadwords, fewer than `late`. */
  ghost predicate Sums(paths: seq<Path>, given: seq<seq<Quad>>, trace: seq<Event>, had: seq<seq<Quad>>, back: nat,
                       late: nat) {
    && |paths| == 3 && |given| == 3 && |paths[2].tag.regs| == 16
    && Books(paths, given, trace) && Unbroken(trace)
    && Returned(had, given, back) && (back > 0 ==> back < late && paths[2].IsDone())
  }

  lemma SumsFine(paths: seq<Path>, given: seq<seq<Quad>>, trace: seq<Event>, had: seq<seq<Quad>>, back: nat,
                 late: nat, i: nat)
    requires Sums(paths, given, trace, had, back, late) && i < 3
    ensures PathFine(paths[i]) && |paths| == 3 && |given| == 3
    ensures back > 0 ==> paths[2].IsDone()
  {}

  /** The end of a packet, or the lack of data, in terms of the accounts. */
  lemma SumsParse(paths: seq<Path>, given: seq<seq<Quad>>, trace: seq<Event>, had: seq<seq<Quad>>, back: nat, late: nat,
                  i: nat, gs: Handler, masked: bool)
    requires Sums(paths, given, trace, had, back, late) && i < 3 && (back > 0 ==> i != 2)
    requires Holds(paths[2], masked, i == 2, late) && (EndsInPath2(trace) ==> i == 1)
    ensures |paths[i].tag.regs| == 16
    ensures var r := Exec(paths[i], gs, Ctx(i == 2, masked));
            && |given[i]| >= |r.rewound|
            && (r.done ==> Sums(paths[i := r.path], given[i := given[i][..|given[i]| - |r.rewound|]],
                                trace + [Complete(i, r.packet)], had, if i == 2 then |r.rewound| else back, late))
            && (!r.done ==> Sums(paths[i := r.path], given, trace, had, back, late))
            && Holds(paths[i := r.path][2], masked, i == 2, late)
            && (r.rewound != [] ==> masked)
            && (r.done ==> r.path.AtRest()) && (!r.done && !paths[i].AtRest() ==> !r.path.AtRest())
  {
    hide Exec, Books, Unbroken, Returned, Holds, EndsInPath2, PathFine, Path.Ok, Path.Valid;
    BooksFine(paths, given, trace, i);
    var ctx := Ctx(i == 2, masked);
    BooksParse(paths, given, trace, i, gs, ctx);
    Parsed(paths[i], gs, ctx);
    if i == 2 { ParsedHolds(paths[i], gs, masked, late); }
    var r := Exec(paths[i], gs, ctx);
    UnbrokenStep(trace, Complete(i, r.packet));
    ReturnedStep(had, given, back, i, |r.rewound|);
  }

  /** GIF_STAT after arbitration chose APATH n, or none: then the unit is released if it may be. */
  function Switched(stat: Stat, n: nat, release: bool): (s: Stat)
    ensures SameControls(stat, s)
    ensures s.apath == if n > 0 then n else if release then 0 else stat.apath
  {
    if n == 1 then stat.(apath := 1, p1q := false)
    else if n == 2 then stat.(apath := 2, p2q := false)
    else if n > 0 then stat.(apath := n, p3q := false, ip3 := false)
    else if release then stat.(apath := 0, oph := false)
    else stat
  }

  // ---- `Execute` as a function of the unit's state ----

  /** The state of the unit; `back` is the rewind of path 3. */
  datatype State = State(paths: seq<Path>, fake: nat, stat: Stat, gs: Handler, back: nat, trace: seq<Event>) {
    predicate Masked() { stat.m3r || stat.m3p }

    predicate CanDoGif() { !stat.pse && !stat.dir && !gs.queued }

    predicate IsDone(mtvu: bool, i: nat)
      requires |paths| == 3 && i < 3
    {
      if i == 0 && mtvu then fake == 0 else paths[i].IsDone()
    }

    predicate Waiting12(mtvu: bool)
      requires |paths| == 3
    {
      !IsDone(mtvu, 0) || !IsDone(mtvu, 1)
    }

    /** The APATH of the path whose turn it is, 0 if none may go. */
    function Chosen(mtvu: bool): nat
      requires |paths| == 3
    {
      if !gs.queued && !IsDone(mtvu, 0) then 1
      else if !gs.queued && !IsDone(mtvu, 1) then 2
      else if !gs.queued && !IsDone(mtvu, 2) && !(Masked() && paths[2].AtRest()) then 3
      else 0
    }

    /** Path 3 is active, or it is the first to become so. */
    predicate Path3First(mtvu: bool)
      requires |paths| == 3
    {
      stat.apath == 3 || (stat.apath == 0 && Chosen(mtvu) == 3)
    }

    predicate Slices(mtvu: bool, didPath3: bool)
      requires |paths| == 3
    {
      stat.apath == 3 && stat.imt && paths[2].state == OnImage && !gs.queued && !didPath3 && Waiting12(mtvu)
    }

    /** Each round eats data, cuts path 3 for the first time, or makes a path active. */
    function Left(didPath3: bool): nat
      requires |paths| == 3
    {
      4 * (|paths[0].rest| + |paths[1].rest| + |paths[2].rest| + fake) + (if didPath3 then 0 else 2) + if stat.apath == 0 then 1 else 0
    }

    ghost predicate Fine() {
      |paths| == 3 && stat.apath <= 3 && forall i :: 0 <= i < 3 ==> PathFine(paths[i])
    }
  }

  const INIT_STATE := State([INIT_PATH, INIT_PATH, INIT_PATH], 0, INIT_STAT, Handler(false, false, false, []), 0, [])

  /** `Exec` for any path value. */
  function ExecOn(p: Path, gs: Handler, ctx: Ctx): Result {
    if |p.tag.regs| == 16 then Exec(p, gs, ctx) else NotDone(p, gs)
  }

  datatype Ran = Ran(s: State, done: bool)

  /** The parser runs on the active path, and a packet it completes is handed over. */
  function ParseOn(s: State, cur: nat): Ran
    requires |s.paths| == 3 && 0 < s.stat.apath <= 3 && cur < 3
  {
    var i := s.stat.apath - 1;
    var r := ExecOn(s.paths[i], s.gs, Ctx(i == 2, s.Masked()));
    var s1 := s.(paths := s.paths[i := r.path], gs := r.gs);
    if !r.done then Ran(s1, false)
    else
      Ran(s1.(back := if i == 2 then |r.rewound| else s.back,
              trace := if s1.paths[cur].AtRest() then s.trace + [Complete(i, r.packet)] else s.trace), true)
  }

  function RunOn(s: State, cur: nat): Ran
    requires |s.paths| == 3 && 0 < s.stat.apath <= 3 && cur < 3
  {
    if s.stat.apath == 1 && s.fake > 0 then
      Ran(s.(fake := s.fake - 1, trace := if s.paths[cur].AtRest() then s.trace + [Fake] else s.trace), true)
    else ParseOn(s, cur)
  }

  /** The path-3 image slice. */
  function SliceOn(s: State): State
    requires |s.paths| == 3
  {
    var p := s.paths[2];
    var s1 := s.(stat := s.stat.(apath := 0, ip3 := true));
    if |p.pack| > 1 then
      var n := |p.pack| - if p.tag.isValid then 1 else 0;
      s1.(paths := s.paths[2 := p.(pack := [], cycles := 0, rest := p.pack[n..] + p.rest, tag := p.tag.(isValid := false))],
          trace := s.trace + [Slice(p.pack[..n])])
    else s1.(trace := s.trace + [Slice([])])
  }

  datatype Turned = Turned(s: State, more: bool, cur: nat, didPath3: bool)

  /** A packet that is not complete ends the loop, unless it can be sliced. */
  function CutOn(s: State, mtvu: bool, cur: nat, didPath3: bool): Turned
    requires |s.paths| == 3
  {
    if s.Slices(mtvu, didPath3) then Turned(SliceOn(s), true, cur, true) else Turned(s, false, cur, didPath3)
  }

  /** One round of the loop. */
  function RoundOn(s: State, mtvu: bool, isResume: bool, cur: nat, didPath3: bool): Turned
    requires |s.paths| == 3 && s.stat.apath <= 3 && cur < 3
  {
    if s.stat.apath != 0 then
      var r := RunOn(s, cur);
      if r.done then ArbitrateOn(r.s, mtvu, isResume, cur, didPath3) else CutOn(r.s, mtvu, cur, didPath3)
    else ArbitrateOn(s, mtvu, isResume, cur, didPath3)
  }

  function ArbitrateOn(s: State, mtvu: bool, isResume: bool, cur: nat, didPath3: bool): Turned
    requires |s.paths| == 3
  {
    var n := s.Chosen(mtvu);
    Turned(s.(stat := Switched(s.stat, n, isResume || cur == 0)), n > 0, if n > 0 then n - 1 else cur, didPath3)
  }

  lemma RunFine(s: State, cur: nat)
    requires s.Fine() && s.stat.apath > 0 && cur < 3
    ensures var r := RunOn(s, cur);
            && r.s.Fine() && r.s.stat == s.stat
            && (if r.done then r.s.Left(true) < s.Left(true) - 3 else r.s.Left(true) <= s.Left(true))
            && (!r.done && r.s.paths[s.stat.apath - 1].state == OnImage ==> !r.s.paths[s.stat.apath - 1].tag.isValid)
  {
    hide Exec, PathFine, Starved;
    var i := s.stat.apath - 1;
    Parsed(s.paths[i], s.gs, Ctx(i == 2, s.Masked()));
  }

  /** What a run of the active path does to it, and that it leaves the others alone. */
  lemma RunFacts(s: State, cur: nat)
    requires s.Fine() && s.stat.apath > 0 && cur == s.stat.apath - 1
    ensures RunOn(s, cur) == if s.stat.apath == 1 && s.fake > 0 then RunOn(s, cur) else ParseOn(s, cur)
    ensures var r := RunOn(s, cur);
            && |r.s.paths| == 3 && r.s.paths == s.paths[cur := r.s.paths[cur]] && r.s.stat == s.stat
            && (if r.done then r.s.Left(true) < s.Left(true) - 3 else r.s.Left(true) <= s.Left(true))
            && (!r.done ==> r.s.fake == s.fake && r.s.trace == s.trace && r.s.back == s.back && !(s.stat.apath == 1 && s.fake > 0))
            && (!r.done && r.s.paths[cur].state == OnImage ==> !r.s.paths[cur].tag.isValid)
            && (!r.done && !r.s.gs.queued ==> |r.s.paths[cur].tag.regs| == 16 && Starved(r.s.paths[cur]))
            && (r.done && cur == 2 && s.Masked() ==> r.s.paths[2].rest == [])
  {
    hide Exec, PathFine, Starved;
    RunFine(s, cur);
    Parsed(s.paths[cur], s.gs, Ctx(cur == 2, s.Masked()));
  }

  lemma RoundFine(s: State, mtvu: bool, isResume: bool, cur: nat, didPath3: bool)
    requires s.Fine() && cur < 3
    ensures var t := RoundOn(s, mtvu, isResume, cur, didPath3);
            t.s.Fine() && t.cur < 3 && (t.more ==> t.s.Left(t.didPath3) < s.Left(didPath3))
  {
    hide PathFine, RunOn, ArbitrateOn, SliceOn, State.Left;
    if s.stat.apath != 0 {
      RunFine(s, cur);
      var r := RunOn(s, cur);
      LeftSliced(r.s, didPath3);
      LeftSliced(s, didPath3);
      if r.done { ArbitrateFine(r.s, mtvu, isResume, cur, didPath3); }
      else if r.s.Slices(mtvu, didPath3) { SliceFine(r.s); }
    } else {
      ArbitrateFine(s, mtvu, isResume, cur, didPath3);
    }
  }

  lemma LeftSliced(s: State, didPath3: bool)
    requires |s.paths| == 3
    ensures s.Left(didPath3) == s.Left(true) + if didPath3 then 0 else 2
  {}

  lemma ArbitrateFine(s: State, mtvu: bool, isResume: bool, cur: nat, didPath3: bool)
    requires s.Fine() && cur < 3
    ensures var t := ArbitrateOn(s, mtvu, isResume, cur, didPath3);
            && t.s.Fine() && t.cur < 3 && t.didPath3 == didPath3 && t.s == s.(stat := t.s.stat)
            && (t.more ==> t.s.Left(didPath3) <= s.Left(didPath3) && (s.stat.apath == 0 ==> t.s.Left(didPath3) < s.Left(didPath3)))
  {
    hide PathFine, Path.IsDone, Path.AtRest;
  }

  lemma SliceFine(s: State)
    requires s.Fine() && s.stat.apath != 0 && !s.paths[2].tag.isValid
    ensures SliceOn(s).Fine() && SliceOn(s).Left(true) <= s.Left(true) + 1
  {
    hide PathFine, SliceOn;
    var p := s.paths[2];
    SlicedPathFine(p);
    SliceIs(s);
    var t := SliceOn(s);
    assert t.paths == s.paths[2 := t.paths[2]] && t.paths[2].rest == p.rest && PathFine(t.paths[2]);
  }

  /** No part of the packet is put back: the tag of a sliced image is not valid. */
  lemma SliceIs(s: State)
    requires |s.paths| == 3 && !s.paths[2].tag.isValid
    ensures var p := s.paths[2]; var q := p.(pack := [], cycles := 0);
            SliceOn(s) == s.(stat := s.stat.(apath := 0, ip3 := true),
                             paths := if |p.pack| > 1 then s.paths[2 := q] else s.paths,
                             trace := s.trace + [Slice(if |p.pack| > 1 then p.pack else [])])
  {
    var p := s.paths[2];
    assert p.pack[..|p.pack|] == p.pack && p.pack[|p.pack|..] + p.rest == p.rest;
    assert p.tag.(isValid := false) == p.tag;
  }

  lemma SlicedPathFine(p: Path)
    requires PathFine(p)
    ensures PathFine(p.(pack := [], cycles := 0))
  {}

  /** The loop of `Execute`. */
  ghost function Rounds(s: State, mtvu: bool, isResume: bool, cur: nat, didPath3: bool): (t: Turned)
    requires s.Fine() && cur < 3
    ensures t.s.Fine() && t.cur < 3
    decreases s.Left(didPath3)
  {
    RoundFine(s, mtvu, isResume, cur, didPath3);
    var t := RoundOn(s, mtvu, isResume, cur, didPath3);
    if t.more then Rounds(t.s, mtvu, isResume, t.cur, t.didPath3) else t
  }

  /** `FlushToMTGS` after the loop. */
  function FlushOn(s: State, cur: nat): State
    requires |s.paths| == 3 && s.stat.apath <= 3 && cur < 3
  {
    var i := s.stat.apath - 1;
    if s.paths[cur].rest == [] && s.stat.apath != 0 && s.paths[i].pack != [] && !s.paths[i].tag.isValid then
      s.(paths := s.paths[i := s.paths[i].(pack := [])], trace := s.trace + [Piece(i, s.paths[i].pack)])
    else s
  }

  /** The state in which the loop is entered, and the path that it starts with. */
  function Entered(s: State): State { s.(back := 0, stat := s.stat.(oph := true)) }

  function StartOf(s: State): nat { if s.stat.apath > 0 then s.stat.apath - 1 else 0 }

  ghost function ExecuteOn(s: State, mtvu: bool, isResume: bool): State
    requires s.Fine()
  {
    if !s.CanDoGif() then s
    else
      var t := Rounds(Entered(s), mtvu, isResume, StartOf(s), false);
      FlushOn(t.s, t.cur)
  }

  // ---- what path 3 gives back ----

  /** Path 3 gives nothing back any more. */
  ghost predicate Quiet3(s: State)
    requires |s.paths| == 3
  {
    Holds(s.paths[2], s.Masked(), s.stat.apath == 3, 0) && (s.back > 0 ==> s.stat.apath != 3 && s.paths[2].IsDone())
  }

  lemma ArbitrateQuiet(s: State, mtvu: bool, isResume: bool, cur: nat, didPath3: bool)
    requires s.Fine() && cur < 3 && Holds(s.paths[2], s.Masked(), s.stat.apath == 3, 0) && (s.back > 0 ==> s.paths[2].IsDone())
    ensures var t := ArbitrateOn(s, mtvu, isResume, cur, didPath3);
            |t.s.paths| == 3 && t.s.back == s.back && (t.more ==> Quiet3(t.s))
  {
    hide PathFine, Holds, Path.IsDone, Path.AtRest;
    HoldsTurn(s.paths[2], s.Masked(), s.stat.apath == 3, 0);
  }

  lemma RunQuiet(s: State, cur: nat)
    requires s.Fine() && s.stat.apath > 0 && cur < 3 && Quiet3(s)
    ensures var r := RunOn(s, cur);
            && |r.s.paths| == 3 && r.s.back == s.back && r.s.stat == s.stat
            && Holds(r.s.paths[2], r.s.Masked(), s.stat.apath == 3, 0) && (r.s.back > 0 ==> s.stat.apath != 3 && r.s.paths[2].IsDone())
  {
    hide Exec, PathFine, Holds, Path.IsDone;
    var i := s.stat.apath - 1;
    if i == 2 { ParsedHolds(s.paths[2], s.gs, s.Masked(), 0); }
  }

  lemma SliceQuiet(s: State)
    requires s.Fine() && !s.paths[2].tag.isValid && Holds(s.paths[2], s.Masked(), true, 0) && s.back == 0
    ensures |SliceOn(s).paths| == 3 && SliceOn(s).back == 0 && Quiet3(SliceOn(s))
  {
    hide PathFine, Holds, SliceOn;
    SliceIs(s);
    HoldsShut(s.paths[2], s.Masked(), 0);
  }

  lemma RoundQuiet(s: State, mtvu: bool, isResume: bool, cur: nat, didPath3: bool)
    requires s.Fine() && cur < 3 && Quiet3(s)
    ensures var t := RoundOn(s, mtvu, isResume, cur, didPath3);
            |t.s.paths| == 3 && t.s.back == s.back && (t.more ==> Quiet3(t.s))
  {
    hide PathFine, RunOn, ArbitrateOn, SliceOn, Holds, Path.IsDone;
    if s.stat.apath != 0 {
      RunFine(s, cur);
      RunQuiet(s, cur);
      var r := RunOn(s, cur);
      if r.done { ArbitrateQuiet(r.s, mtvu, isResume, cur, didPath3); }
      else if r.s.Slices(mtvu, didPath3) { SliceQuiet(r.s); }
    } else {
      ArbitrateQuiet(s, mtvu, isResume, cur, didPath3);
    }
  }

  lemma {:induction false} RoundsQuiet(s: State, mtvu: bool, isResume: bool, cur: nat, didPath3: bool)
    requires s.Fine() && cur < 3 && Quiet3(s)
    ensures Rounds(s, mtvu, isResume, cur, didPath3).s.back == s.back
    decreases s.Left(didPath3)
  {
    hide RoundOn, Quiet3, PathFine, State.Left;
    RoundFine(s, mtvu, isResume, cur, didPath3);
    RoundQuiet(s, mtvu, isResume, cur, didPath3);
    var t := RoundOn(s, mtvu, isResume, cur, didPath3);
    if t.more { RoundsQuiet(t.s, mtvu, isResume, t.cur, t.didPath3); }
  }

  /** The first run of path 3 decides what it gives back. */
  lemma FirstRound(s: State, mtvu: bool, isResume: bool)
    requires s.Fine() && s.stat.apath == 3 && s.back == 0
    ensures var t := RoundOn(s, mtvu, isResume, 2, false);
            && |t.s.paths| == 3 && t.s.back == |ExecOn(s.paths[2], s.gs, Ctx(true, s.Masked())).rewound|
            && (t.more ==> Quiet3(t.s))
  {
    hide Exec, PathFine, Holds, ArbitrateOn, SliceOn, Path.IsDone, Path.AtRest, Starved;
    RunFine(s, 2);
    Parsed(s.paths[2], s.gs, Ctx(true, s.Masked()));
    var r := RunOn(s, 2);
    if r.done {
      DoneHolds(r.s.paths[2], s.Masked());
      ArbitrateQuiet(r.s, mtvu, isResume, 2, false);
    } else if r.s.Slices(mtvu, false) {
      StarvedHolds(r.s.paths[2], s.Masked());
      SliceQuiet(r.s);
    }
  }

  lemma DoneHolds(p: Path, masked: bool)
    requires |p.tag.regs| == 16 && p.AtRest() && !p.tag.isValid && (masked ==> p.rest == [])
    ensures Holds(p, masked, true, 0) && (p.rest == [] ==> p.IsDone())
  {}

  lemma StarvedHolds(p: Path, masked: bool)
    requires |p.tag.regs| == 16 && Starved(p)
    ensures Holds(p, masked, true, 0)
  {
    assert p.(rest := p.rest[..|p.rest| - 0]) == p;
  }

  /** How much an unmasked path 3 would keep behind the next packet it completes. */
  function Behind(p: Path, gs: Handler): nat {
    var u := ExecOn(p, gs, Ctx(true, false));
    if u.done then |u.path.rest| else 0
  }

  lemma RoundsGiveBack(s: State, mtvu: bool, isResume: bool)
    requires s.Fine() && s.stat.apath == 3 && s.back == 0
    ensures Rounds(s, mtvu, isResume, 2, false).s.back == if s.Masked() then Behind(s.paths[2], s.gs) else 0
  {
    hide Exec, RoundOn, Quiet3, State.Left, State.Chosen, Holds, PathFine;
    FirstRound(s, mtvu, isResume);
    RoundFine(s, mtvu, isResume, 2, false);
    var t := RoundOn(s, mtvu, isResume, 2, false);
    if t.more { RoundsQuiet(t.s, mtvu, isResume, t.cur, t.didPath3); }
    GivesBack(s.paths[2], s.gs, s.Masked());
  }

  /** A round in which path 3 is not active does nothing to it. */
  lemma OtherRound(s: State, mtvu: bool, isResume: bool, cur: nat)
    requires s.Fine() && cur < 3 && s.stat.apath != 3
    ensures var t := RoundOn(s, mtvu, isResume, cur, false);
            && |t.s.paths| == 3 && t.s.paths[2] == s.paths[2] && t.s.back == s.back && t.s.Masked() == s.Masked()
            && !t.didPath3 && (t.more && t.s.stat.apath == 3 ==> t.cur == 2)
  {
    hide PathFine, RunOn, SliceOn, State.Chosen;
    if s.stat.apath != 0 { OtherRun(s, cur); }
  }

  lemma OtherRun(s: State, cur: nat)
    requires |s.paths| == 3 && 0 < s.stat.apath < 3 && cur < 3
    ensures var u := RunOn(s, cur).s; |u.paths| == 3 && u.paths[2] == s.paths[2] && u.back == s.back && u.stat == s.stat
  {
    hide ExecOn;
  }

  /** Whether path 3 becomes active in the rounds that follow, and what the handler has seen then. */
  datatype Path3Turn = NoTurn | TurnWith(gs: Handler)

  ghost function ToPath3(s: State, mtvu: bool, isResume: bool, cur: nat): Path3Turn
    requires s.Fine() && cur < 3
    decreases s.Left(false)
  {
    if s.stat.apath == 3 then TurnWith(s.gs)
    else
      RoundFine(s, mtvu, isResume, cur, false);
      OtherRound(s, mtvu, isResume, cur);
      var t := RoundOn(s, mtvu, isResume, cur, false);
      if t.more then ToPath3(t.s, mtvu, isResume, t.cur) else NoTurn
  }

  /** What the first run of path 3 gives back in the rounds that follow, if path 3 holds p until then. */
  ghost function BehindTurn(s: State, mtvu: bool, isResume: bool, cur: nat, p: Path): nat
    requires s.Fine() && cur < 3
  {
    var turn := ToPath3(s, mtvu, isResume, cur);
    if s.Masked() && turn.TurnWith? then Behind(p, turn.gs) else 0
  }

  lemma {:induction false} RoundsGiveBackLater(s: State, mtvu: bool, isResume: bool, cur: nat)
    requires s.Fine() && cur < 3 && s.back == 0 && (s.stat.apath == 3 ==> cur == 2)
    ensures Rounds(s, mtvu, isResume, cur, false).s.back == BehindTurn(s, mtvu, isResume, cur, s.paths[2])
    decreases s.Left(false)
  {
    hide RoundOn, State.Left, PathFine, Behind;
    if s.stat.apath == 3 {
      RoundsGiveBack(s, mtvu, isResume);
    } else {
      RoundFine(s, mtvu, isResume, cur, false);
      OtherRound(s, mtvu, isResume, cur);
      var t := RoundOn(s, mtvu, isResume, cur, false);
      if t.more { RoundsGiveBackLater(t.s, mtvu, isResume, t.cur); }
    }
  }

  /** What path 3, holding p, gives back in a call of `Execute`. */
  ghost function GivesBackOf(s: State, mtvu: bool, isResume: bool, p: Path): nat {
    if s.Fine() && s.CanDoGif() then BehindTurn(Entered(s), mtvu, isResume, StartOf(s), p) else 0
  }

  ghost function GivenBack(s: State, mtvu: bool, isResume: bool): nat {
    if |s.paths| == 3 then GivesBackOf(s, mtvu, isResume, s.paths[2]) else 0
  }

  /** In every call of `Execute`, path 3 gives back exactly what lies behind the packet that it completes
      when it first gets its turn, and that only if it gets one and is masked. */
  lemma Path3GivesBack(s: State, mtvu: bool, isResume: bool)
    requires s.Fine() && s.CanDoGif()
    ensures ExecuteOn(s, mtvu, isResume).back == GivenBack(s, mtvu, isResume)
  {
    hide PathFine, BehindTurn, RoundOn;
    RoundsGiveBackLater(Entered(s), mtvu, isResume, StartOf(s));
  }

  /** If path 3 is active already, or is the first to become so, that is the packet it completes next. */
  lemma GivenBackFirst(s: State, mtvu: bool, isResume: bool)
    requires s.Fine() && s.CanDoGif() && s.Path3First(mtvu)
    ensures GivenBack(s, mtvu, isResume) == if s.Masked() then Behind(s.paths[2], s.gs) else 0
  {
    hide PathFine, Behind, RoundOn, Path.IsDone, Path.AtRest;
    if s.stat.apath == 0 {
      ChosenRound(Entered(s), mtvu, isResume);
      var t := RoundOn(Entered(s), mtvu, isResume, 0, false);
      RoundFine(Entered(s), mtvu, isResume, 0, false);
      assert ToPath3(t.s, mtvu, isResume, 2) == TurnWith(s.gs);
    }
  }

  /** The round that makes path 3 active. */
  lemma ChosenRound(s: State, mtvu: bool, isResume: bool)
    requires s.Fine() && s.stat.apath == 0 && s.Chosen(mtvu) == 3
    ensures RoundOn(s, mtvu, isResume, 0, false) == Turned(s.(stat := Switched(s.stat, 3, true)), true, 2, false)
  {}

  /** State b comes of state a by `Execute`, and path 3 gave back what `GivenBack` says. */
  ghost predicate Executes(a: State, b: State, mtvu: bool, isResume: bool) {
    && a.Fine() && b == ExecuteOn(a, mtvu, isResume)
    && (a.CanDoGif() ==> b.back == GivenBack(a, mtvu, isResume))
  }

  /** The state with new data behind what path i holds. */
  function Brought(s: State, i: nat, data: seq<Quad>): State {
    if i < |s.paths| then s.(paths := s.paths[i := More(s.paths[i], data)]) else s
  }

  lemma ExecutesThat(a: State, mtvu: bool, isResume: bool)
    requires a.Fine() && a.CanDoGif()
    ensures Entered(a).Fine() && StartOf(a) < 3
    ensures var t := Rounds(Entered(a), mtvu, isResume, StartOf(a), false);
            Executes(a, FlushOn(t.s, t.cur), mtvu, isResume)
  {
    hide GivenBack, FlushOn, PathFine;
    Path3GivesBack(a, mtvu, isResume);
  }

  /** Path 3 lets go, and if it is between packets the others may run. */
  ghost function LetGoOn(s: State, mtvu: bool): State
    requires |s.paths| == 3
  {
    if s.paths[2].AtRest() && s.Waiting12(mtvu) && Released(s).Fine() then ExecuteOn(Released(s), mtvu, true) else Released(s)
  }

  /** A complete packet of path 3 is over. */
  function EndWaitOn(s: State): State {
    if |s.paths| == 3 && s.paths[2].state == Wait then s.(paths := s.paths[2 := s.paths[2].(state := Idle)]) else s
  }

  /** `gifCheckPathStatus` as a function of the unit's state. */
  ghost function CheckOn(s: State, mtvu: bool): State
    requires |s.paths| == 3
  {
    EndWaitOn(if s.stat.apath == 3 then LetGoOn(s, mtvu) else s)
  }

  lemma PausedGivesNothing(s: State, mtvu: bool, isResume: bool)
    ensures !s.CanDoGif() ==> GivenBack(s, mtvu, isResume) == 0
  {}

  lemma ExecutesBack(a: State, b: State, mtvu: bool, isResume: bool)
    requires Executes(a, b, mtvu, isResume)
    ensures GivenBack(a, mtvu, isResume) == if a.CanDoGif() then b.back else 0
  {
    hide BehindTurn;
  }

  lemma ExecutesNot(a: State, mtvu: bool, isResume: bool)
    requires a.Fine() && !a.CanDoGif()
    ensures Executes(a, a, mtvu, isResume)
  {}

  /** Behind a completed packet, a masked path 3 keeps nothing. */
  lemma GivesBack(p: Path, gs: Handler, masked: bool)
    requires PathFine(p)
    ensures |p.tag.regs| == 16
    ensures var u := Exec(p, gs, Ctx(true, false));
            Exec(p, gs, Ctx(true, masked)).rewound == if masked && u.done then u.path.rest else []
  {
    hide Exec, Starved;
    Parsed(p, gs, Ctx(true, masked));
    ExecMasked(p, gs, Ctx(true, masked));
  }

  // ---- when path 3 gives back more than it was offered ----

  /** On a masked path 3, the call of the parser gives back the whole new chunk, or more, exactly when
      a complete packet was buffered before the chunk came; and more than the chunk, so that the
      unsigned subtraction wraps, exactly when there were bytes behind that packet. */
  lemma RewindReachesBack(p: Path, gs: Handler, data: seq<Quad>)
    requires PathFine(p) && data != []
    ensures |p.tag.regs| == 16
    ensures var r := Exec(More(p, data), gs, Ctx(true, true)); var q := Exec(p, gs, Ctx(true, false));
            && (q.done ==> r.rewound == q.path.rest + data)
            && (|r.rewound| >= |data| <==> q.done)
            && (|r.rewound| > |data| <==> q.done && q.path.rest != [])
            && Behind(More(p, data), gs) == |r.rewound|
  {
    hide Exec, Starved, Path.Ok;
    var plain, masked := Ctx(true, false), Ctx(true, true);
    Parsed(p, gs, plain);
    ExecMore(p, gs, plain, data);
    FineMore(p, data);
    GivesBack(More(p, data), gs, true);
    FineValid(p);
    ExecKeepsValid(p, gs, plain);
    var q := Exec(p, gs, plain);
    if !q.done && !q.stalled {
      var q2 := More(q.path, data);
      assert q2.(rest := q2.rest[..|q2.rest| - |data|]) == q.path;
      ExecStarves(p, gs, plain);
      FineMore(q.path, data);
      GivesBack(q2, q.gs, true);
      ParsedLate(q2, q.gs, masked, |data|);
    }
  }

  lemma FineMore(p: Path, data: seq<Quad>)
    requires PathFine(p)
    ensures PathFine(More(p, data))
  {}

  lemma BroughtFine(s: State, i: nat, data: seq<Quad>)
    requires s.Fine()
    ensures Brought(s, i, data).Fine() && |s.paths| == 3 && PathFine(s.paths[2])
  {
    hide PathFine;
    if i < 3 { FineMore(s.paths[i], data); }
  }

  /** The same in terms of what path 3 would keep. */
  lemma BehindMore(p: Path, gs: Handler, data: seq<Quad>)
    requires PathFine(p) && data != []
    ensures Behind(More(p, data), gs) > |data| <==> Behind(p, gs) > 0
  {
    hide Exec;
    RewindReachesBack(p, gs, data);
  }

  /** Whether a DMA transfer of path 3 gives back more than it brings: path 3 is masked, gets its turn, and
      completes then, with what it held before, a packet that has bytes behind it. */
  ghost predicate Wraps(s: State, mtvu: bool, data: seq<Quad>) {
    |s.paths| == 3 && GivesBackOf(Brought(s, 2, data), mtvu, false, s.paths[2]) > 0
  }

  lemma WrapsExactly(s: State, mtvu: bool, data: seq<Quad>)
    requires Brought(s, 2, data).Fine() && |s.paths| == 3 && PathFine(s.paths[2]) && data != []
    ensures Wraps(s, mtvu, data) <==> GivenBack(Brought(s, 2, data), mtvu, false) > |data|
  {
    hide ToPath3, PathFine, Behind;
    var b := Brought(s, 2, data);
    if b.CanDoGif() {
      var turn := ToPath3(Entered(b), mtvu, false, StartOf(b));
      if turn.TurnWith? { BehindMore(s.paths[2], turn.gs, data); }
    }
  }

  class GifUnit {
    const mtvu: bool            // VU1 runs on its own thread
    var paths: seq<Path>
    var fake: nat               // packets the MTVU thread will complete, not announced yet
    var stat: Stat
    var gs: Handler
    var dmaRewind: nat          // of path 3
    var trace: seq<Event>

    ghost var given: seq<seq<Quad>>   // every byte each path accepted and did not give back
    ghost var fakesGiven: nat

    ghost predicate Valid()
      reads this
    {
      && |paths| == 3 && |given| == 3 && |paths[2].tag.regs| == 16 && Books(paths, given, trace) && fakesGiven == Fakes(trace) + fake
      && stat.apath <= 3
      && (if mtvu then Unused(paths[0]) && stat.apath != 1 else fake == 0)
      && Unbroken(trace) && (EndsInPath2(trace) ==> stat.apath == 2 && !paths[1].AtRest())
    }

    constructor (mtvu: bool)
      ensures Valid() && given == [[], [], []] && this.mtvu == mtvu && Now() == INIT_STATE
    {
      this.mtvu := mtvu;
      paths, fake, stat := [INIT_PATH, INIT_PATH, INIT_PATH], 0, INIT_STAT;
      gs, dmaRewind, trace := Handler(false, false, false, []), 0, [];
      given, fakesGiven := [[], [], []], 0;
      new;
      NothingRead();
    }

    predicate IsDone(i: nat)
      reads this
      requires |paths| == 3 && i < 3
    {
      if i == 0 && mtvu then fake == 0 else paths[i].IsDone()
    }

    /** The state that `ExecuteOn` is about. */
    function Now(): State
      reads this
    {
      State(paths, fake, stat, gs, dmaRewind, trace)
    }

    predicate CanDoGif()
      reads this
    {
      !stat.pse && !stat.dir && !gs.queued
    }

    predicate CanDoP3Slice()
      reads this
      requires |paths| == 3
    {
      stat.imt && paths[2].state == OnImage
    }

    predicate Masked()
      reads this
    {
      stat.m3r || stat.m3p
    }

    predicate Path3Masked()
      reads this
      requires |paths| == 3
    {
      Masked() && paths[2].AtRest()
    }

    predicate CanDoPath1()
      reads this
      requires |paths| == 3
    {
      (stat.apath == 0 || stat.apath == 1 || (stat.apath == 3 && CanDoP3Slice())) && CanDoGif()
    }

    predicate CanDoPath2()
      reads this
      requires |paths| == 3
    {
      (stat.apath == 0 || stat.apath == 2 || (stat.apath == 3 && CanDoP3Slice())) && CanDoGif()
    }

    predicate CanDoPath2HL()
      reads this
    {
      (stat.apath == 0 || stat.apath == 2) && CanDoGif()
    }

    predicate CanDoPath3()
      reads this
      requires |paths| == 3
    {
      ((stat.apath == 0 && !Path3Masked()) || stat.apath == 3) && CanDoGif()
    }
  
    /** The accounts while `Execute` loops, after it was entered with accounts `had`.  Path 3 gives
        back fewer than `late` quadwords. */
    ghost predicate Accounts(had: seq<seq<Quad>>, late: nat)
      reads `paths, `given, `trace, `fake, `fakesGiven, `dmaRewind
    {
      && Sums(paths, given, trace, had, dmaRewind, late)
      && fakesGiven == Fakes(trace) + fake && (if mtvu then Unused(paths[0]) else fake == 0)
    }

    lemma Enter(was: seq<Event>, from: nat, had: seq<seq<Quad>>, curPath: nat, late: nat)
      requires |paths| == 3 && |given| == 3 && |paths[2].tag.regs| == 16
      requires Books(paths, given, trace) && fakesGiven == Fakes(trace) + fake
      requires (if mtvu then Unused(paths[0]) else fake == 0) && Unbroken(trace)
      requires EndsInPath2(trace) ==> stat.apath == 2 && !paths[1].AtRest()
      requires was == trace && from == stat.apath <= 3 && had == given && dmaRewind == 0
      requires curPath == (if stat.apath > 0 then stat.apath - 1 else 0) && Holds(paths[2], Masked(), stat.apath == 3, late)
      ensures Looping(was, from, had, curPath, late) && Served(was, from)
    {
      hide Holds, Books, Unbroken, Fakes;
      assert had[2][..|had[2]|] == had[2];
    }

    lemma Dry(had: seq<seq<Quad>>, late: nat, i: nat)
      requires Accounts(had, late) && i < 3
      ensures |paths[i].tag.regs| == 16
      ensures paths[i].rest == [] ==> Starved(paths[i])
    {
      BooksFine(paths, given, trace, i);
    }

    lemma Leave(had: seq<seq<Quad>>, late: nat)
      requires Accounts(had, late) && stat.apath <= 3 && (mtvu ==> stat.apath != 1)
      requires EndsInPath2(trace) ==> stat.apath == 2 && |paths| == 3 && !paths[1].AtRest()
      ensures Valid() && Returned(had, given, dmaRewind) && (dmaRewind > 0 ==> dmaRewind < late)
      ensures dmaRewind > 0 ==> paths[2].IsDone()
    {}

    lemma Three(had: seq<seq<Quad>>, late: nat)
      requires Accounts(had, late)
      ensures |paths| == 3
    {}

    /** What holds while `Execute` loops, after it was entered with path `from` active and trace `was`. */
    ghost predicate Looping(was: seq<Event>, from: nat, had: seq<seq<Quad>>, curPath: nat, late: nat)
      reads this
    {
      && Accounts(had, late)
      && stat.apath <= 3 && (stat.apath != 0 ==> curPath == stat.apath - 1) && curPath < 3
      && (EndsInPath2(trace) ==> stat.apath == 2 && |paths| == 3 && !paths[1].AtRest())
      && Handover(was, from, trace, stat.apath) && |was| <= |trace|
      && (|was| < |trace| ==> !trace[|trace| - 1].Piece?)
      && (dmaRewind > 0 ==> Masked())
      && |paths| == 3 && Holds(paths[2], Masked(), stat.apath == 3, late)
    }

    function Unparsed(): nat
      reads this
      requires |paths| == 3
    {
      |paths[0].rest| + |paths[1].rest| + |paths[2].rest| + fake
    }

    /** Paths 1 .. n have nothing to do. */
    predicate DoneBelow(n: nat)
      reads this
      requires |paths| == 3 && n <= 3
    {
      (n > 0 ==> IsDone(0)) && (n > 1 ==> IsDone(1)) && (n > 2 ==> IsDone(2))
    }

    /** `checkPaths(1, 1, 0)`. */
    predicate Waiting12()
      reads this
      requires |paths| == 3
    {
      !IsDone(0) || !IsDone(1)
    }

    /** Why the unit stops: a SIGNAL is queued, the active path needs more data, or no path may go. */
    ghost predicate Settled()
      reads this
    {
      && |paths| == 3 && stat.apath <= 3
      && (gs.queued ||
          if stat.apath == 0 then DoneBelow(2) && (IsDone(2) || Path3Masked())
          else |paths[stat.apath - 1].tag.regs| == 16 && Starved(paths[stat.apath - 1]))
    }

    /** Another path is active, or path 3 holds no complete packet or is between packets. */
    ghost predicate Calm()
      reads this
    {
      && |paths| == 3 && |paths[2].tag.regs| == 16
      && (stat.apath == 1 || stat.apath == 2 || Starved(paths[2]) || (stat.apath != 3 && paths[2].AtRest()))
    }

    /** So it is, unless a SIGNAL is queued or the unit is paused. */
    ghost predicate Ready()
      reads this
    {
      |paths| == 3 && |paths[2].tag.regs| == 16 && (!CanDoGif() || Calm())
    }

    lemma SettledReady()
      requires Settled() && |paths[2].tag.regs| == 16
      ensures Ready()
    {
      hide Starved;
    }

    lemma DoneEnds()
      requires Valid() && IsDone(1)
      ensures !EndsInPath2(trace)
    {
      hide Books, Unbroken, Fakes;
    }

    lemma DoneReady()
      requires |paths| == 3 && |paths[2].tag.regs| == 16 && stat.apath == 0 && IsDone(2)
      ensures Ready()
    {
      hide Starved;
    }

    lemma ReadyTight()
      requires Ready() && CanDoPath3()
      ensures Tight()
    {
      var p := paths[2];
      if Starved(p) { assert p.(rest := p.rest[..|p.rest| - 0]) == p; }
    }

    /** Path 3 can give nothing back before more data comes: it is not masked, or it is between packets
        and not active, or no complete packet is buffered. */
    ghost predicate Tight()
      reads this
    {
      |paths| == 3 && Holds(paths[2], Masked(), stat.apath == 3, 0)
    }

    /** A path that was chosen by arbitration goes before every path below it. */
    ghost predicate Served(was: seq<Event>, from: nat)
      reads this
    {
      && |paths| == 3 && stat.apath <= 3
      && (stat.apath != 0 && !gs.queued && (from == 0 || (|was| < |trace| && !trace[|was|].Piece?)) ==> DoneBelow(stat.apath - 1))
    }

    /** The MTVU thread will complete this packet of path 1. */
    method RunFake(ghost was: seq<Event>, ghost from: nat, ghost had: seq<seq<Quad>>, curPath: nat, ghost late: nat)
      requires Looping(was, from, had, curPath, late) && stat.apath == 1 && fake > 0
      modifies `fake, `trace
      ensures Looping(was, from, had, curPath, late)
      ensures trace == old(trace) + [Fake] && fake == old(fake) - 1
      ensures Ran(Now(), true) == RunOn(old(Now()), curPath)
    {
      hide SentOn, Marks, Booked, PathFine, Holds, Books, Unbroken, Handover, Returned, Fakes;
      BooksEmpty(paths, given, trace, Fake);
      TraceAppend(trace, Fake, 0);
      HandoverStep(was, from, trace, stat.apath, Fake);
      UnbrokenStep(trace, Fake);
      fake := fake - 1;
      if paths[curPath].AtRest() { trace := trace + [Fake]; }
    }

    /** The parser completed a packet of the active path: it is handed over if path `curPath` is at rest. */
    method HandOver(r: Result, ghost was: seq<Event>, ghost from: nat, ghost had: seq<seq<Quad>>, curPath: nat,
                    ghost late: nat)
      requires Looping(was, from, had, curPath, late) && stat.apath != 0 && !(mtvu && stat.apath == 1)
      requires dmaRewind > 0 ==> stat.apath != 3
      requires r == ExecOn(paths[curPath], gs, Ctx(curPath == 2, Masked())) && r.done
      modifies `paths, `gs, `dmaRewind, `trace, `given
      ensures Looping(was, from, had, curPath, late) && |trace| == |old(trace)| + 1
      ensures Ran(Now(), true) == ParseOn(old(Now()), curPath)
    {
      hide SentOn, Marks, Exec, Sums, Books, PathFine, Holds, Handover, Starved, Fakes, Path.Ok, Path.Valid, Unbroken,
           Path.AtRest, Path.IsDone, Unused, EndsInPath2;
      SumsFine(paths, given, trace, had, dmaRewind, late, curPath);
      SumsParse(paths, given, trace, had, dmaRewind, late, curPath, gs, Masked());
      ghost var e := Complete(curPath, r.packet);
      TraceAppend(trace, e, 0);
      HandoverStep(was, from, trace, stat.apath, e);
      CompleteEnds(trace, e);
      given := given[curPath := given[curPath][..|given[curPath]| - |r.rewound|]];
      paths, gs := paths[curPath := r.path], r.gs;
      if curPath == 2 { dmaRewind := |r.rewound|; }
      if paths[curPath].AtRest() { trace := trace + [Complete(curPath, r.packet)]; }
    }

    /** The parser stopped in the middle of a packet. */
    method Pause(r: Result, ghost was: seq<Event>, ghost from: nat, ghost had: seq<seq<Quad>>, curPath: nat,
                 ghost late: nat)
      requires Looping(was, from, had, curPath, late) && stat.apath != 0 && !(mtvu && stat.apath == 1)
      requires dmaRewind > 0 ==> stat.apath != 3
      requires r == ExecOn(paths[curPath], gs, Ctx(curPath == 2, Masked())) && !r.done
      modifies `paths, `gs
      ensures Looping(was, from, had, curPath, late)
      ensures Ran(Now(), false) == ParseOn(old(Now()), curPath)
    {
      hide SentOn, Marks, Exec, Sums, Books, PathFine, Holds, Handover, Starved, Fakes, Path.Ok, Path.Valid, Unbroken;
      SumsFine(paths, given, trace, had, dmaRewind, late, curPath);
      SumsParse(paths, given, trace, had, dmaRewind, late, curPath, gs, Masked());
      paths, gs := paths[curPath := r.path], r.gs;
    }

    /** The parser runs on the active path. */
    method RunParser(ghost was: seq<Event>, ghost from: nat, ghost had: seq<seq<Quad>>, curPath: nat, ghost late: nat)
      returns (done: bool)
      requires Looping(was, from, had, curPath, late) && stat.apath != 0 && !gs.queued
      requires !(mtvu && stat.apath == 1)
      requires dmaRewind > 0 ==> stat.apath != 3
      modifies `paths, `gs, `dmaRewind, `trace, `given
      ensures Looping(was, from, had, curPath, late)
      ensures if done then |trace| == |old(trace)| + 1 else trace == old(trace)
      ensures Ran(Now(), done) == ParseOn(old(Now()), curPath)
    {
      hide ParseOn, ExecOn;
      var r := ExecOn(paths[stat.apath - 1], gs, Ctx(stat.apath == 3, Masked()));
      done := r.done;
      if done {
        HandOver(r, was, from, had, curPath, late);
      } else {
        Pause(r, was, from, had, curPath, late);
      }
    }

    lemma NowFine(had: seq<seq<Quad>>, late: nat)
      requires Accounts(had, late) && stat.apath <= 3
      ensures Now().Fine()
    {
      BooksFine(paths, given, trace, 0);
      BooksFine(paths, given, trace, 1);
      BooksFine(paths, given, trace, 2);
    }

    /** One call of `ExecuteGSPacket` on the active path.  A packet that it completes is handed over if
        path `curPath` is at rest, and it always is. */
    method RunPath(ghost was: seq<Event>, ghost from: nat, ghost had: seq<seq<Quad>>, curPath: nat, ghost late: nat)
      returns (done: bool)
      requires Looping(was, from, had, curPath, late) && stat.apath != 0 && !gs.queued
      requires mtvu && stat.apath == 1 ==> fake > 0
      requires dmaRewind > 0 ==> stat.apath != 3
      modifies `paths, `fake, `gs, `dmaRewind, `trace, `given
      ensures Looping(was, from, had, curPath, late) && |paths| == |old(paths)| == 3
      ensures Ran(Now(), done) == RunOn(old(Now()), curPath)
      ensures done ==> |was| < |trace| && !EndsInPath2(trace) && Unparsed() < old(Unparsed())
      ensures !done ==> trace == old(trace) && Unparsed() <= old(Unparsed()) && dmaRewind == old(dmaRewind)
      ensures !done ==> paths == old(paths)[curPath := paths[curPath]] && !(mtvu && stat.apath == 1) && fake == old(fake)
      ensures !done ==> (paths[curPath].state == OnImage ==> !paths[curPath].tag.isValid)
      ensures !done && !gs.queued ==> |paths[curPath].tag.regs| == 16 && Starved(paths[curPath])
      ensures !done && old(Served(was, from)) ==> Served(was, from)
      ensures dmaRewind > 0 ==> paths[2].IsDone()
      ensures done && curPath == 2 && Masked() ==> paths[2].rest == []
    {
      hide SentOn, Marks, Booked, Holds, Books, Unbroken, Handover, Starved, Returned, Fakes, Path.Ok, RunOn, ParseOn,
           PathFine;
      NowFine(had, late);
      RunFacts(Now(), curPath);
      if stat.apath == 1 && fake > 0 {
        RunFake(was, from, had, curPath, late);
        done := true;
      } else {
        done := RunParser(was, from, had, curPath, late);
      }
    }

    /** What holds at the head of the loop of `Execute`. */
    ghost predicate InRound(was: seq<Event>, from: nat, had: seq<seq<Quad>>, curPath: nat, late: nat)
      reads this
    {
      && Looping(was, from, had, curPath, late) && !gs.queued && |paths| == 3
      && (mtvu && stat.apath == 1 ==> fake > 0)
      && (dmaRewind > 0 ==> stat.apath != 3 && paths[2].IsDone())
      && (stat.apath == 0 && from != 0 ==> |was| < |trace|)
      && Served(was, from)
    }

    /** What holds when the loop is left. */
    ghost predicate OutOfRounds(was: seq<Event>, from: nat, had: seq<seq<Quad>>, curPath: nat, late: nat)
      reads this
    {
      Looping(was, from, had, curPath, late) && (mtvu ==> stat.apath != 1) && Settled() && Served(was, from)
    }

    /** Each round eats data, cuts path 3 for the first time, or makes a path active. */
    function Left(didPath3: bool): nat
      reads this
      requires |paths| == 3
    {
      4 * Unparsed() + (if didPath3 then 0 else 2) + if stat.apath == 0 then 1 else 0
    }

    /** The path-3 slice: the image packet so far counts as complete and the other paths may go. */
    method SlicePath3(ghost was: seq<Event>, ghost from: nat, ghost had: seq<seq<Quad>>, ghost late: nat)
      requires Looping(was, from, had, 2, late) && stat.apath == 3 && dmaRewind == 0
      requires paths[2].state == OnImage && !paths[2].tag.isValid
      modifies `paths, `stat, `trace
      ensures Looping(was, from, had, 2, late)
      ensures stat == old(stat).(apath := 0, ip3 := true)
      ensures |trace| == |old(trace)| + 1 && trace[|old(trace)|].Slice?
      ensures paths == old(paths)[2 := paths[2]] && paths[2].rest == old(paths[2].rest) && paths[2].state == OnImage
      ensures Now() == SliceOn(old(Now()))
    {
      hide SentOn, Marks, Booked, Holds, Books, Unbroken, Handover, Starved, Returned, Fakes, Path.Ok, SliceOn;
      BooksFine(paths, given, trace, 2);
      SliceIs(Now());
      HoldsShut(paths[2], Masked(), late);
      stat := stat.(apath := 0, ip3 := true);
      ghost var p := paths[2];
      ghost var e := Slice(if |p.pack| > 1 then p.pack else []);
      TraceAppend(trace, e, 0);
      HandoverStep(was, from, trace, 3, e);
      UnbrokenStep(trace, e);
      if |paths[2].pack| > 1 {
        var gsPack := paths[2].pack;
        var subOffset := if paths[2].tag.isValid then 1 else 0;
        var back := gsPack[|gsPack| - subOffset..];
        gsPack := gsPack[..|gsPack| - subOffset];
        var q := paths[2].(pack := [], cycles := 0, rest := back + paths[2].rest, tag := paths[2].tag.(isValid := false));
        assert subOffset == 0 && back == [] && q.rest == p.rest && gsPack == p.pack && q.tag == p.tag;
        BooksHand(paths, given, trace, 2, Slice(p.pack), 0);
        trace := trace + [Slice(gsPack)];
        paths := paths[2 := q];
      } else {
        BooksEmpty(paths, given, trace, e);
        trace := trace + [Slice([])];
      }
    }

    /** The APATH of the path whose turn it is, 0 if none may go. */
    function NextPath(): (n: nat)
      reads this
      requires |paths| == 3
      ensures 0 < n ==> n <= 3 && !gs.queued && !IsDone(n - 1) && DoneBelow(n - 1) && (n == 3 ==> !Path3Masked())
      ensures n == 0 ==> gs.queued || (DoneBelow(2) && (IsDone(2) || Path3Masked()))
      ensures n == Now().Chosen(mtvu)
    {
      if !gs.queued && !IsDone(0) then 1
      else if !gs.queued && !IsDone(1) then 2
      else if !gs.queued && !IsDone(2) && !Path3Masked() then 3
      else 0
    }

    /** The next path in order of priority, unless a SIGNAL is queued. */
    method Arbitrate(isResume: bool, curPath: nat,
                     ghost was: seq<Event>, ghost from: nat, ghost had: seq<seq<Quad>>, ghost late: nat)
      returns (found: bool, next: nat)
      requires Looping(was, from, had, curPath, late) && (from != 0 ==> |was| < |trace|) && !EndsInPath2(trace)
      modifies `stat
      ensures Looping(was, from, had, next, late)
      ensures SameControls(old(stat), stat)
      ensures found == (old(NextPath()) != 0)
      ensures found ==> stat.apath == old(NextPath()) && next == stat.apath - 1
      ensures found ==> !gs.queued && !IsDone(next) && DoneBelow(next)
      ensures !found ==> gs.queued || (DoneBelow(2) && (IsDone(2) || Path3Masked()))
      ensures Turned(Now(), found, next, false) == ArbitrateOn(old(Now()), mtvu, isResume, curPath, false)
      ensures !found ==> next == curPath && stat.apath == if isResume || curPath == 0 then 0 else old(stat.apath)
    {
      hide Accounts, Handover, EndsInPath2, NextPath, Holds, Switched;
      assert |paths| == 3 by { Three(had, late); }
      HandoverTo(was, from, trace, stat.apath);
      HoldsTurn(paths[2], Masked(), stat.apath == 3, late);
      var n := NextPath();
      found, next := n > 0, if n > 0 then n - 1 else curPath;
      stat := Switched(stat, n, isResume || curPath == 0);
    }

    /** `FlushToMTGS`: a packet that has no EOP yet is handed over as it is. */
    method FlushToMTGS(ghost was: seq<Event>, ghost from: nat, ghost had: seq<seq<Quad>>, ghost curPath: nat,
                       ghost late: nat)
      requires Looping(was, from, had, curPath, late)
      modifies `paths, `trace
      ensures Accounts(had, late) && Handover(was, from, trace, stat.apath)
      ensures EndsInPath2(trace) ==> stat.apath == 2 && !paths[1].AtRest()
      ensures |paths| == |old(paths)| == 3
      ensures old(paths[curPath]).rest == [] ==> Now() == FlushOn(old(Now()), curPath)
      ensures forall i :: 0 <= i < 3 ==> paths[i] == old(paths[i]) || paths[i] == old(paths[i]).(pack := [])
      ensures trace == old(trace)
              || (stat.apath != 0 && trace == old(trace) + [Piece(stat.apath - 1, old(paths)[stat.apath - 1].pack)])
    {
      hide SentOn, Marks, Booked, Holds, Books, Unbroken, Handover, Starved, Returned, Fakes, Path.Ok;
      if stat.apath == 0 { return; }
      var i := stat.apath - 1;
      BooksFine(paths, given, trace, i);
      FinePack(paths[i]);
      var p := paths[i];
      if p.pack != [] && !p.tag.isValid {
        ghost var e := Piece(i, p.pack);
        var q := p.(pack := []);
        TraceAppend(trace, e, 0);
        HandoverStep(was, from, trace, stat.apath, e);
        UnbrokenStep(trace, e);
        BooksHand(paths, given, trace, i, e, p.cycles);
        trace := trace + [Piece(i, p.pack)];
        paths := paths[i := q];
      }
    }

    /** The slicing branch of `Execute`. */
    method Cut(ghost was: seq<Event>, ghost from: nat, ghost had: seq<seq<Quad>>, ghost late: nat)
      requires Looping(was, from, had, 2, late) && stat.apath == 3 && dmaRewind == 0 && !gs.queued
      requires CanDoP3Slice() && !paths[2].tag.isValid
      modifies `paths, `stat, `trace
      ensures InRound(was, from, had, 2, late) && SameControls(old(stat), stat) && Left(true) < old(Left(false))
      ensures Now() == SliceOn(old(Now()))
    {
      hide SentOn, Marks, Booked, Holds, Books, Unbroken, Handover, Starved, Returned, Fakes, Accounts, Path.AtRest,
           Path.IsDone, EndsInPath2, IsDone;
      Three(had, late);
      SlicePath3(was, from, had, late);
      Three(had, late);
    }

    lemma SlicesNow(didPath3: bool)
      requires |paths| == 3
      ensures Now().Slices(mtvu, didPath3) == (stat.apath == 3 && CanDoP3Slice() && !gs.queued && !didPath3 && Waiting12())
    {}

    /** The part of a round that parses; a packet that is not complete ends the round. */
    method Parse(curPath: nat, sliced: bool,
                 ghost was: seq<Event>, ghost from: nat, ghost had: seq<seq<Quad>>, ghost late: nat)
      returns (done: bool, more: bool, didPath3: bool)
      requires InRound(was, from, had, curPath, late) && stat.apath != 0
      modifies this
      ensures fakesGiven == old(fakesGiven) && SameControls(old(stat), stat)
      ensures done ==> Looping(was, from, had, curPath, late) && |was| < |trace| && !EndsInPath2(trace)
                       && |paths| == 3 && stat == old(stat) && Unparsed() < old(Unparsed()) && didPath3 == sliced
                       && (dmaRewind > 0 ==> paths[2].IsDone()) && (curPath == 2 && Masked() ==> paths[2].rest == [])
      ensures !done && more ==> InRound(was, from, had, curPath, late) && Left(didPath3) < old(Left(sliced))
      ensures !done && !more ==> OutOfRounds(was, from, had, curPath, late)
      ensures var r := RunOn(old(Now()), curPath);
              && |r.s.paths| == 3 && r.done == done
              && if done then Now() == r.s else Turned(Now(), more, curPath, didPath3) == CutOn(r.s, mtvu, curPath, sliced)
    {
      hide SentOn, Marks, Booked, Holds, Books, Unbroken, Handover, Starved, Returned, Fakes, Accounts, Path.AtRest,
           Path.IsDone, EndsInPath2, IsDone, RunOn, SliceOn, State.Slices;
      more, didPath3 := true, sliced;
      done := RunPath(was, from, had, curPath, late);
      if !done {
        SlicesNow(didPath3);
        if stat.apath == 3 && CanDoP3Slice() && !gs.queued && !didPath3 && Waiting12() {
          didPath3 := true;
          Cut(was, from, had, late);
        } else {
          more := false;
        }
      }
    }

    /** One round of the loop of `Execute`. */
    method Round(isResume: bool, at: nat, sliced: bool,
                 ghost was: seq<Event>, ghost from: nat, ghost had: seq<seq<Quad>>, ghost late: nat)
      returns (more: bool, curPath: nat, didPath3: bool)
      requires InRound(was, from, had, at, late)
      modifies this
      ensures fakesGiven == old(fakesGiven) && SameControls(old(stat), stat)
      ensures more ==> InRound(was, from, had, curPath, late) && Left(didPath3) < old(Left(sliced))
      ensures !more ==> OutOfRounds(was, from, had, curPath, late)
      ensures Turned(Now(), more, curPath, didPath3) == RoundOn(old(Now()), mtvu, isResume, at, sliced)
    {
      hide SentOn, Marks, Booked, Holds, Books, Unbroken, Handover, Starved, Returned, Fakes, Accounts, Path.AtRest,
           NextPath, RunOn, CutOn, State.Chosen, Switched;
      more, curPath, didPath3 := true, at, sliced;
      if stat.apath != 0 {
        var done;
        done, more, didPath3 := Parse(curPath, didPath3, was, from, had, late);
        if !done { return; }
      }
      more, curPath := Arbitrate(isResume, curPath, was, from, had, late);
      if stat.apath != 0 { Dry(had, late, stat.apath - 1); }
    }

    /** The end of `Execute`: what is parsed completely goes out even without EOP. */
    method FlushIfParsed(curPath: nat, ghost was: seq<Event>, ghost from: nat, ghost had: seq<seq<Quad>>,
                         ghost late: nat)
      requires OutOfRounds(was, from, had, curPath, late)
      modifies `paths, `trace
      ensures Now() == FlushOn(old(Now()), curPath)
      ensures Valid() && Returned(had, given, dmaRewind) && (dmaRewind > 0 ==> dmaRewind < late)
      ensures dmaRewind > 0 ==> Masked() && paths[2].IsDone()
      ensures Handover(was, from, trace, stat.apath)
      ensures Settled() && Served(was, from) && Holds(paths[2], Masked(), stat.apath == 3, late)
    {
      hide SentOn, Marks, Booked, Holds, Books, Unbroken, Handover, Starved, Returned, Fakes, Path.Ok, Accounts,
           NextPath;
      ghost var before := paths;
      HoldsPack(paths[2], Masked(), stat.apath == 3, late);
      if paths[curPath].rest == [] {
        FlushToMTGS(was, from, had, curPath, late);
      }
      if stat.apath != 0 { PackLess(before[stat.apath - 1]); }
      Leave(had, late);
    }

    lemma RoundNow(was: seq<Event>, from: nat, had: seq<seq<Quad>>, curPath: nat, late: nat)
      requires InRound(was, from, had, curPath, late)
      ensures Now().Fine() && curPath < 3
    {
      hide Accounts, Holds, Handover;
      NowFine(had, late);
    }

    /** The rounds of `Execute` and its end. */
    method RunAll(isResume: bool, start: nat,
                  ghost was: seq<Event>, ghost from: nat, ghost had: seq<seq<Quad>>, ghost late: nat)
      requires InRound(was, from, had, start, late)
      modifies this
      ensures Valid() && Executed(was, from, had) && (dmaRewind > 0 ==> dmaRewind < late)
      ensures SameControls(old(stat), stat) && fakesGiven == old(fakesGiven) && Holds(paths[2], Masked(), stat.apath == 3, late)
      ensures old(Now()).Fine()
      ensures var all := Rounds(old(Now()), mtvu, isResume, start, false); Now() == FlushOn(all.s, all.cur)
    {
      hide SentOn, Marks, Booked, Holds, Books, Unbroken, Handover, Starved, Returned, Fakes, Path.Ok, Accounts,
           NextPath, Path.IsDone, Path.AtRest, Served, Settled, Looping, RoundOn, FlushOn, PathFine, State.Left;
      var curPath, more, didPath3 := start, true, false;
      RoundNow(was, from, had, curPath, late);
      ghost var all := Rounds(Now(), mtvu, isResume, start, false);
      while more
        invariant if more then InRound(was, from, had, curPath, late) else OutOfRounds(was, from, had, curPath, late)
        invariant fakesGiven == old(fakesGiven) && SameControls(old(stat), stat)
        invariant Now().Fine() && curPath < 3
        invariant (if more then Rounds(Now(), mtvu, isResume, curPath, didPath3) else Turned(Now(), false, curPath, didPath3)) == all
        decreases more, if more then Left(didPath3) else 0
      {
        RoundFine(Now(), mtvu, isResume, curPath, didPath3);
        more, curPath, didPath3 := Round(isResume, curPath, didPath3, was, from, had, late);
      }
      FlushIfParsed(curPath, was, from, had, late);
    }

    lemma ValidFine()
      requires Valid()
      ensures Now().Fine()
    {
      BooksFine(paths, given, trace, 0);
      BooksFine(paths, given, trace, 1);
      BooksFine(paths, given, trace, 2);
    }

    /** `Execute` when the unit may run. */
    method Run(isResume: bool, ghost late: nat)
      requires Valid() && Holds(paths[2], Masked(), stat.apath == 3, late) && CanDoGif()
      modifies this
      ensures Valid() && Executed(old(trace), old(stat.apath), old(given)) && (dmaRewind > 0 ==> dmaRewind < late)
      ensures SameControls(old(stat), stat) && fakesGiven == old(fakesGiven) && Holds(paths[2], Masked(), stat.apath == 3, late)
      ensures Executes(old(Now()), Now(), mtvu, isResume)
    {
      hide SentOn, Marks, Booked, Holds, Books, Unbroken, Handover, Starved, Returned, Fakes, Path.Ok, Accounts,
           NextPath, Path.IsDone, Path.AtRest, Settled, Served, Executed, FlushOn, PathFine, Looping, Executes;
      ghost var was, from, had := trace, stat.apath, given;
      var curPath: nat := if stat.apath > 0 then stat.apath - 1 else 0;
      ValidFine();
      ExecutesThat(Now(), mtvu, isResume);
      dmaRewind := 0;
      stat := stat.(oph := true);
      Enter(was, from, had, curPath, late);
      RunAll(isResume, curPath, was, from, had, late);
    }

    /** `Execute`.  Path 3 gives back fewer than `late` quadwords, or none. */
    method Execute(isPath3: bool, isResume: bool, ghost late: nat) returns (n: nat)
      requires Valid() && Holds(paths[2], Masked(), stat.apath == 3, late)
      modifies this
      ensures Valid()
      ensures !old(CanDoGif()) ==> unchanged(this) && n == 0
      ensures old(CanDoGif()) ==> Executed(old(trace), old(stat.apath), old(given)) && (dmaRewind > 0 ==> dmaRewind < late)
      ensures late == 0 ==> given == old(given)
      ensures Ready() && (late == 0 ==> Tight())
      ensures old(CanDoGif()) ==> n == if isPath3 then dmaRewind else 0
      ensures SameControls(old(stat), stat) && fakesGiven == old(fakesGiven) && Holds(paths[2], Masked(), stat.apath == 3, late)
      ensures Executes(old(Now()), Now(), mtvu, isResume)
    {
      hide SentOn, Marks, Booked, Holds, Books, Unbroken, Handover, Starved, Returned, Fakes, Path.Ok, Path.IsDone,
           Path.AtRest, Settled, Served, Executes, PathFine;
      n := 0;
      if !CanDoGif() {
        BooksFine(paths, given, trace, 2);
        ValidFine();
        ExecutesNot(Now(), mtvu, isResume);
        return;
      }
      ghost var had := given;
      Run(isResume, late);
      if dmaRewind == 0 { NothingReturned(had, given); }
      SettledReady();
      n := if isPath3 then dmaRewind else 0;
    }

    /** What one call of `Execute` does: path 3 gives something back only when it is masked; paths are left only
        at the end of a packet or by a slice; and the unit goes on until nothing more can be done. */
    ghost predicate Executed(was: seq<Event>, from: nat, had: seq<seq<Quad>>)
      reads this
    {
      && Returned(had, given, dmaRewind)
      && (dmaRewind > 0 ==> Masked() && |paths| == 3 && paths[2].IsDone())
      && Handover(was, from, trace, stat.apath)
      && Settled() && Served(was, from)
    }
  
    /** Whether a transfer is taken now; refused ones are offered again later.  Path 1 and the FIFO
        register are always buffered. */
    predicate Accepts(t: Transfer)
      reads this
      requires |paths| == 3
    {
      match t
      case DmaTransfer => CanDoPath3()
      case Direct => CanDoPath2()
      case DirectHL => CanDoPath2HL()
      case _ => true
    }

    /** Paths 1 and 2 never give anything back. */
    ghost predicate OthersKept(had: seq<seq<Quad>>)
      reads this
    {
      |given| == |had| == 3 && given[0] == had[0] && given[1] == had[1]
    }

    /** How much path 3 may give back if it holds `more` behind what it has now. */
    lemma Bound(more: seq<Quad>) returns (late: nat)
      requires Valid()
      ensures Holds(More(paths[2], more), Masked(), stat.apath == 3, late)
      ensures Tight() ==> late == |more|
    {
      hide SentOn, Marks, Booked, Unbroken, Fakes, Starved, Books, EndsInPath2;
      var p, q := paths[2], More(paths[2], more);
      if Tight() {
        late := |more|;
        assert q.(rest := q.rest[..|q.rest| - late]) == p.(rest := p.rest[..|p.rest| - 0]);
      } else {
        late := |q.rest| + 1;
      }
    }

    /** The same when nothing is added. */
    lemma NoMore() returns (late: nat)
      requires Valid()
      ensures Holds(paths[2], Masked(), stat.apath == 3, late)
      ensures Tight() ==> late == 0
    {
      hide SentOn, Marks, Booked, Unbroken, Fakes, Books, Holds, EndsInPath2;
      late := Bound([]);
      MoreNothing(paths[2]);
    }

    /** `Execute` without a transfer. */
    method Resume()
      requires Valid()
      modifies this
      ensures Valid() && Ready() && fakesGiven == old(fakesGiven) && SameControls(old(stat), stat)
      ensures OthersKept(old(given)) && (old(Tight()) ==> given == old(given) && Tight())
      ensures if old(CanDoGif()) then Settled() else unchanged(this)
      ensures Executes(old(Now()), Now(), mtvu, true)
      ensures Returned(old(given), given, GivenBack(old(Now()), mtvu, true))
    {
      hide SentOn, Marks, Booked, Unbroken, Fakes, Starved, Holds, Books, Handover, Settled, Served, Executes,
           PathFine, Path.Ok, Path.IsDone, EndsInPath2, GivenBack;
      ghost var late := NoMore();
      ghost var s, had := Now(), given;
      var _ := Execute(false, true, late);
      ExecutesBack(s, Now(), mtvu, true);
      ReturnedNothing(had);
    }

    /** `TransferGSPacketData` for VU1 on its own thread: one more packet is announced. */
    method TransferMtvu() returns (n: nat)
      requires Valid() && mtvu
      modifies this
      ensures Valid() && n == 0 && fakesGiven == old(fakesGiven) + 1 && SameControls(old(stat), stat)
      ensures old(Ready()) ==> Ready()
      ensures OthersKept(old(given)) && (old(Tight()) ==> given == old(given) && Tight())
      ensures !old(CanDoGif()) ==> fake == old(fake) + 1 && given == old(given) && trace == old(trace)
      ensures old(CanDoGif()) ==> Executes(old(Now()).(fake := old(fake) + 1), Now(), mtvu, true)
      ensures Returned(old(given), given, GivenBack(old(Now()).(fake := old(fake) + 1), mtvu, true))
    {
      hide SentOn, Marks, Booked, Unbroken, Fakes, Starved, Holds, Executes, Books, Handover, Settled, Served,
           Path.IsDone,
           GivenBack, Returned;
      PausedGivesNothing(Now().(fake := fake + 1), mtvu, true);
      ReturnedNothing(given);
      fake := fake + 1;
      fakesGiven := fakesGiven + 1;
      if CanDoGif() { Resume(); }
      n := 0;
    }

    function PathOf(t: Transfer): nat {
      if t == XgKick || t == MtvuKick then 0 else if t == Direct || t == DirectHL then 1 else 2
    }

    /** The Q flag that a transfer sets when its path is not free. */
    function Queued(t: Transfer): (s: Stat)
      reads this
      requires |paths| == 3
      ensures SameControls(stat, s) && s.apath == stat.apath
    {
      if t == DmaTransfer && !CanDoPath3() && !Path3Masked() then stat.(p3q := true)
      else if t == XgKick && !CanDoPath1() then stat.(p1q := true)
      else if (t == Direct && !CanDoPath2()) || (t == DirectHL && !CanDoPath2HL()) then stat.(p2q := true)
      else stat
    }

    /** `CopyGSPacketData` as the parser sees it: the data goes behind what path i holds. */
    method Copy(i: nat, data: seq<Quad>)
      requires Valid() && i < 3 && (mtvu ==> i != 0)
      modifies `paths, `given
      ensures Valid() && given == old(given)[i := old(given)[i] + data] && paths == old(paths)[i := More(old(paths)[i], data)]
    {
      hide SentOn, Marks, Booked, Unbroken, Fakes, Starved, Books, Path.IsDone, Path.Ok;
      BooksMore(paths, given, trace, i, data);
      paths := paths[i := More(paths[i], data)];
      given := given[i := given[i] + data];
    }

    /** An accepted transfer. */
    method Take(t: Transfer, data: seq<Quad>) returns (n: int)
      requires Valid() && t != MtvuKick && (mtvu ==> t != XgKick) && data != []
      modifies this
      ensures Valid() && fakesGiven == old(fakesGiven) && SameControls(old(stat), stat)
      ensures Ready()
      ensures old(Tight()) && PathOf(t) != 2 ==> Tight() && |given| == 3 && given[2] == old(given)[2]
      ensures Transferred(t, data, n, old(paths), old(given), old(trace), old(stat.apath), old(CanDoGif()),
                          old(Tight()))
      ensures Executes(Brought(old(Now()), PathOf(t), data), Now(), mtvu, false)
      ensures |old(given)| == 3 && GaveBack(Brought(old(Now()), PathOf(t), data), t, data, n, old(given))
    {
      hide SentOn, Marks, Booked, Unbroken, Fakes, Starved, Holds, Returned, Books, Handover, Settled, Served,
           Path.IsDone,
           Path.AtRest, EndsInPath2, Executes, GivenBack;
      ghost var late := Bound(if PathOf(t) == 2 then data else []);
      MoreNothing(paths[2]);
      Copy(PathOf(t), data);
      ghost var s, had := Now(), given;
      var back := Execute(t == DmaTransfer, false, late);
      ExecutesBack(s, Now(), mtvu, false);
      ReturnedNothing(had);
      n := |data| - back;
    }

    /** What an accepted transfer kept, for the state s in which `Execute` was called: the bytes that path 3
        gave back are missing from what it was given, and in the result only of a DMA transfer. */
    ghost predicate GaveBack(s: State, t: Transfer, data: seq<Quad>, n: int, had: seq<seq<Quad>>)
      reads this
      requires |had| == 3
    {
      var i, back := PathOf(t), GivenBack(s, mtvu, false);
      Returned(had[i := had[i] + data], given, back) && n == |data| - if t == DmaTransfer then back else 0
    }

    /** `TransferGSPacketData`.  The result counts the quadwords that were kept: it would be negative
        only where the unsigned subtraction of the source wraps. */
    method TransferGSPacketData(t: Transfer, data: seq<Quad>) returns (n: int)
      requires Valid() && t != MtvuKick && (mtvu ==> t != XgKick)
      modifies this
      ensures Valid() && fakesGiven == old(fakesGiven) && SameControls(old(stat), stat)
      ensures old(Ready()) ==> Ready()
      ensures old(Tight()) && PathOf(t) != 2 ==> Tight() && |given| == 3 && given[2] == old(given)[2]
      ensures data == [] ==> unchanged(this) && n == 0
      ensures data != [] && !old(Accepts(t)) ==>
                n == 0 && stat == old(Queued(t)) && paths == old(paths) && given == old(given) && trace == old(trace)
      ensures data != [] && old(Accepts(t)) ==>
                Transferred(t, data, n, old(paths), old(given), old(trace), old(stat.apath), old(CanDoGif()), old(Tight()))
      ensures data != [] && old(Accepts(t)) ==>
                && Executes(Brought(old(Now()).(stat := old(Queued(t))), PathOf(t), data), Now(), mtvu, false)
                && |old(given)| == 3
                && GaveBack(Brought(old(Now()).(stat := old(Queued(t))), PathOf(t), data), t, data, n, old(given))
      ensures n < 0 <==> t == DmaTransfer && data != [] && old(CanDoPath3()) && Wraps(old(Now()), mtvu, data)
    {
      hide SentOn, Marks, Booked, Unbroken, Fakes, Starved, Holds, Returned, Books, Handover, Settled, Served,
           Path.IsDone,
           Path.AtRest, EndsInPath2, Accepts, Executed, Transferred, Queued, Executes, Brought, GivenBack, Wraps, CanDoPath3;
      if data == [] { return 0; }
      var accepted := Accepts(t);
      ghost var s := Now();
      AcceptsDma(t, data);
      stat := Queued(t);
      if !accepted { return 0; }
      n := Take(t, data);
      if t == DmaTransfer {
        ghost var back := GivenBack(Brought(s, 2, data), mtvu, false);
        assert n == |data| - back && (n < 0 <==> back > |data|);
      }
    }

    lemma AcceptsDma(t: Transfer, data: seq<Quad>)
      requires Valid() && data != []
      ensures t == DmaTransfer ==> Accepts(t) == CanDoPath3()
      ensures Accepts(DmaTransfer) ==> Queued(DmaTransfer) == stat
      ensures Wraps(Now(), mtvu, data) <==> GivenBack(Brought(Now(), 2, data), mtvu, false) > |data|
    {
      hide SentOn, Marks, Booked, Unbroken, Fakes, Starved, Books, EndsInPath2, Wraps, GivenBack, PathFine;
      ValidFine();
      BroughtFine(Now(), 2, data);
      WrapsExactly(Now(), mtvu, data);
    }

    /** An accepted transfer: the data goes behind what its path was given, `Execute` runs if it may,
        and a path 3 that held no complete packet gives back less than it got. */
    ghost predicate Transferred(t: Transfer, data: seq<Quad>, n: int, before: seq<Path>, had: seq<seq<Quad>>,
                                was: seq<Event>, from: nat, ran: bool, tight: bool)
      reads this
    {
      var i := PathOf(t);
      && |had| == 3 && |before| == 3
      && if ran then
           && Executed(was, from, had[i := had[i] + data])
           && (dmaRewind > 0 && tight ==> i == 2 && dmaRewind < |data|)
           && (tight && i != 2 ==> Tight())
           && n == |data| - (if t == DmaTransfer then dmaRewind else 0)
         else
           given == had[i := had[i] + data] && trace == was && n == |data|
    }

    /** Writes to GIF_MODE, GIF_CTRL and the path-3 mask of VIF1. */
    method WriteControls(imt: bool, pse: bool, dir: bool, m3r: bool, m3p: bool)
      requires Valid()
      modifies `stat
      ensures Valid() && stat == old(stat).(imt := imt, pse := pse, dir := dir, m3r := m3r, m3p := m3p)
      ensures Ready() <==> !CanDoGif() || old(Calm())
      ensures given == old(given)
      ensures old(Tight()) && (Masked() ==> old(Masked())) ==> Tight()
    {
      hide SentOn, Marks, Booked, Unbroken, Fakes, Books;
      stat := stat.(imt := imt, pse := pse, dir := dir, m3r := m3r, m3p := m3p);
    }

    /** The SIGNAL part of a write to CSR: a queued SIGNAL is delivered and the paths go on.  What path 3 gives
        back then is lost. */
    method AcknowledgeSignal()
      requires Valid()
      modifies this
      ensures Valid() && fakesGiven == old(fakesGiven) && SameControls(old(stat), stat)
      ensures old(Ready()) ==> Ready()
      ensures OthersKept(old(given)) && (old(Tight()) ==> given == old(given) && Tight())
      ensures !stat.pse && !stat.dir ==> Settled()
      ensures Executes(old(Now()).(gs := Acknowledged(old(gs))), Now(), mtvu, true)
      ensures Returned(old(given), given, GivenBack(old(Now()).(gs := Acknowledged(old(gs))), mtvu, true))
    {
      hide SentOn, Marks, Booked, Unbroken, Fakes, Starved, Holds, Books, Handover, Settled, Served, Path.IsDone,
           GivenBack, Returned, Executes;
      gs := Acknowledged(gs);
      Resume();
    }

    /** The other paths run while path 3 is between packets. */
    method ResumeBehind3()
      requires Valid() && stat.apath == 0 && paths[2].AtRest()
      modifies this
      ensures Valid() && fakesGiven == old(fakesGiven) && given == old(given) && SameControls(old(stat), stat)
      ensures Ready() && Tight() && old(Now()).Fine() && Now() == ExecuteOn(old(Now()), mtvu, true)
    {
      hide SentOn, Marks, Booked, Unbroken, Fakes, Starved, Holds, Books, Settled, GivenBack, Returned, PathFine,
           ExecuteOn;
      AtRestHolds(paths[2], Masked());
      Resume();
    }

    /** Path 3 is not active any more. */
    method ReleasePath3()
      requires Valid() && stat.apath == 3
      modifies this
      ensures Valid() && fakesGiven == old(fakesGiven) && given == old(given) && SameControls(old(stat), stat)
      ensures old(Ready()) ==> Ready()
      ensures old(Tight()) ==> Tight()
      ensures Now() == LetGoOn(old(Now()), mtvu)
    {
      hide SentOn, Marks, Booked, Unbroken, Fakes, Starved, Holds, Books, Path.IsDone, Path.AtRest, PathFine,
           ExecuteOn, State.Fine, EndsInPath2, Ready, Tight;
      LetGo();
      if paths[2].AtRest() && Waiting12() { ResumeBehind3(); }
    }

    method LetGo()
      requires Valid() && stat.apath == 3
      modifies `stat
      ensures Valid() && stat.apath == 0 && Now() == Released(old(Now())) && SameControls(old(stat), stat)
      ensures old(Ready()) ==> Ready()
      ensures old(Tight()) ==> Tight()
    {
      hide SentOn, Marks, Booked, Unbroken, Fakes, Starved, Holds, Books, Path.IsDone, Path.AtRest, PathFine, EndsInPath2;
      LetsGo();
      stat := stat.(apath := 0, oph := false);
    }

    lemma LetsGo()
      requires |paths| == 3 && stat.apath == 3
      ensures Tight() ==> Holds(paths[2], Masked(), false, 0)
    {
      if Tight() { HoldsTurn(paths[2], Masked(), true, 0); }
    }

    /** A complete packet of path 3 is over. */
    method EndWait()
      requires Valid()
      modifies `paths
      ensures Valid() && Now() == EndWaitOn(old(Now())) && |paths| == 3 && paths[2].state != Wait
      ensures old(Ready()) ==> Ready()
      ensures old(Tight()) ==> Tight()
    {
      hide SentOn, Marks, Booked, Unbroken, Fakes, Starved, Holds, Path.IsDone, Path.Ok;
      if paths[2].state == Wait {
        BooksIdle(paths, given, trace);
        PackLess(paths[2]);
        if Tight() { HoldsIdle(paths[2], Masked(), stat.apath == 3, 0); }
        paths := paths[2 := paths[2].(state := Idle)];
      }
    }

    /** `gifCheckPathStatus`: at a GIF interrupt path 3 lets go, and if it is between packets the
        other paths may run. */
    method CheckPathStatus()
      requires Valid()
      modifies this
      ensures Valid() && fakesGiven == old(fakesGiven) && SameControls(old(stat), stat)
      ensures old(Ready()) ==> Ready()
      ensures given == old(given) && (old(Tight()) ==> Tight())
      ensures |paths| == 3 && paths[2].state != Wait
      ensures old(stat.apath) != 3 ==> trace == old(trace)
      ensures Now() == CheckOn(old(Now()), mtvu)
    {
      hide SentOn, Marks, Booked, Unbroken, Fakes, Books, EndsInPath2, Ready, Tight, LetGoOn;
      if stat.apath == 3 { ReleasePath3(); }
      EndWait();
    }

    /** Path 2 is done and another path is not. */
    predicate Resumes2()
      reads this
      requires |paths| == 3
    {
      stat.apath == 2 && IsDone(1) && !(IsDone(0) && IsDone(2))
    }

    /** The start of `vif1Interrupt`: path 2 lets go when it is done. */
    method ReleasePath2()
      requires Valid()
      modifies this
      ensures Valid() && fakesGiven == old(fakesGiven) && SameControls(old(stat), stat)
      ensures old(Ready()) ==> Ready()
      ensures OthersKept(old(given)) && (old(Tight()) ==> given == old(given) && Tight())
      ensures !(old(stat.apath) == 2 && old(IsDone(1))) ==> unchanged(this)
      ensures old(Resumes2()) ==>
                Executes(Released(old(Now())), Now(), mtvu, true)
      ensures Returned(old(given), given, if old(Resumes2()) then GivenBack(Released(old(Now())), mtvu, true) else 0)
    {
      hide SentOn, Marks, Booked, Unbroken, Fakes, Starved, Holds, Books, Handover, Settled, Served, Executes,
           PathFine, Path.Ok, Path.IsDone, EndsInPath2, GivenBack, Returned;
      ReturnedNothing(given);
      if stat.apath == 2 && IsDone(1) {
        DoneEnds();
        stat := stat.(apath := 0, oph := false);
        if !IsDone(0) || !IsDone(2) {
          Resume();
        } else {
          DoneReady();
        }
      }
    }
  }
}
