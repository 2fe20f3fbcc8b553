/** How the EE sleeps for the GS thread: on a ring that is too full, and on too many queued frames.
    Every operation on a shared variable or semaphore is one step.  The GS thread is that of the
    libretro build: it never sets the busy flag, and returns to its caller after each VSYNC. */
module MtgsWaits {
  import opened Arith

  datatype Ee =
    | Running
    | Sent          // VSYNC packet committed, not counted yet
    | Listening     // too many frames: about to set the listener flag
    | Posting       // about to post the ring's event, so that the GS thread cannot sleep on
    | VsyncWait
    | Enabling      // about to set SignalRingEnable
    | Kicking       // about to post the ring's event
    | RingWait

  datatype Gs =
    | Asleep
    | Looping       // before the test for an empty ring
    | Counted       // VSYNC in front: the frame count is lowered
    | PostingVsync  // the listener flag was set and is taken back
    | Heard         // the listener flag is seen to
    | Tested(vsync: bool)       // packet released, before the test of SignalRingEnable
    | Clearing | PostingRing    // the position asked for is reached
    | Leaving | PostingLeave    // after a VSYNC packet
    | Emptied | PostingEmptied  // the ring was empty: see to SignalRingEnable
    | Emptied2 | PostingEmptied2  // and to the listener flag

  /** `queue` tells for each packet in the ring whether it is a VSYNC, `limit` is VsyncQueueSize. */
  datatype State = State(limit: nat, queue: seq<bool>, frames: int, listener: bool, vsyncSem: nat,
                         ringEnable: bool, ringPosition: int, ringSem: nat, eventSem: nat, ee: Ee, gs: Gs)

  function Start(limit: nat): State {
    State(limit, [], 0, false, 0, false, 0, 0, 0, Running, Asleep)
  }

  datatype Step =
    | Send | SendVsync | Kick | Stall(position: int) | Count | Listen | Post | WakeVsync | Enable | KickRing | WakeRing(again: bool)
    | GsWake | GsRead | GsExchange | GsPostVsync | GsRelease | GsTest | GsClear | GsPostRing
    | GsLeave | GsPostLeave | GsEmptied | GsPostEmptied | GsEmptied2 | GsPostEmptied2

  /** A step of the EE thread. */
  predicate OfEe(e: Step) {
    e.Send? || e.SendVsync? || e.Kick? || e.Stall? || e.Count? || e.Listen? || e.Post? || e.WakeVsync? || e.Enable?
    || e.KickRing? || e.WakeRing?
  }

  predicate Enabled(s: State, e: Step) {
    if OfEe(e) then EeEnabled(s, e) else GsEnabled(s, e)
  }

  predicate EeEnabled(s: State, e: Step)
    requires OfEe(e)
  {
    match e
    case Send => s.ee == Running
    case SendVsync => s.ee == Running
    case Kick => s.ee == Running || s.ee == Sent
    case Stall(_) => s.ee == Running
    case Count => s.ee == Sent
    case Listen => s.ee == Listening
    case Post => s.ee == Posting
    case WakeVsync => s.ee == VsyncWait && s.vsyncSem > 0
    case Enable => s.ee == Enabling
    case KickRing => s.ee == Kicking
    case WakeRing(_) => s.ee == RingWait && s.ringSem > 0
  }

  predicate GsEnabled(s: State, e: Step)
    requires !OfEe(e)
  {
    match e
    case GsWake => s.gs == Asleep && s.eventSem > 0
    case GsRead => s.gs == Looping
    case GsExchange => s.gs == Counted
    case GsPostVsync => s.gs == PostingVsync
    case GsRelease => s.gs == Heard && s.queue != []
    case GsTest => s.gs.Tested?
    case GsClear => s.gs == Clearing
    case GsPostRing => s.gs == PostingRing
    case GsLeave => s.gs == Leaving
    case GsPostLeave => s.gs == PostingLeave
    case GsEmptied => s.gs == Emptied
    case GsPostEmptied => s.gs == PostingEmptied
    case GsEmptied2 => s.gs == Emptied2
    case GsPostEmptied2 => s.gs == PostingEmptied2
  }

  function Next(s: State, e: Step): State
    requires Enabled(s, e)
  {
    if OfEe(e) then EeNext(s, e) else GsNext(s, e)
  }

  function EeNext(s: State, e: Step): State
    requires OfEe(e) && EeEnabled(s, e)
  {
    match e
    case Send => s.(queue := s.queue + [false])
    case SendVsync => s.(queue := s.queue + [true], ee := Sent)
    case Kick => s.(eventSem := s.eventSem + 1)
    case Stall(n) => s.(ringPosition := n, ee := Enabling)
    case Count => s.(frames := s.frames + 1, ee := if s.frames < s.limit then Running else Listening)
    case Listen => s.(listener := true, ee := Posting)
    case Post => s.(eventSem := s.eventSem + 1, ee := VsyncWait)
    case WakeVsync => s.(vsyncSem := s.vsyncSem - 1, ee := Running)
    case Enable => s.(ringEnable := true, ee := Kicking)
    case KickRing => s.(eventSem := s.eventSem + 1, ee := RingWait)
    case WakeRing(again) => s.(ringSem := s.ringSem - 1, ee := if again then Enabling else Running)
  }

  function GsNext(s: State, e: Step): State
    requires !OfEe(e) && GsEnabled(s, e)
  {
    match e
    case GsWake => s.(eventSem := s.eventSem - 1, gs := Looping)
    case GsRead =>
      if s.queue == [] then s.(gs := Emptied)
      else if s.queue[0] then s.(frames := s.frames - 1, gs := Counted)
      else s.(queue := s.queue[1..], gs := Tested(false))
    case GsExchange => s.(listener := false, gs := if s.listener then PostingVsync else Heard)
    case GsPostVsync => s.(vsyncSem := s.vsyncSem + 1, gs := Heard)
    case GsRelease => s.(queue := s.queue[1..], gs := Tested(true))
    case GsTest =>
      if s.ringEnable then
        s.(ringPosition := s.ringPosition - if s.gs.vsync then 17 else 1,
           gs := if s.ringPosition <= 0 then Clearing else if s.gs.vsync then Leaving else Looping)
      else s.(gs := if s.gs.vsync then Leaving else Looping)
    case GsClear => s.(ringEnable := false, gs := PostingRing)
    case GsPostRing => s.(ringSem := s.ringSem + 1, gs := Looping)
    case GsLeave => s.(ringEnable := false, ringPosition := if s.ringEnable then 0 else s.ringPosition,
                       gs := if s.ringEnable then PostingLeave else Asleep)
    case GsPostLeave => s.(ringSem := s.ringSem + 1, gs := Asleep)
    case GsEmptied => s.(ringEnable := false, ringPosition := if s.ringEnable then 0 else s.ringPosition,
                         gs := if s.ringEnable then PostingEmptied else Emptied2)
    case GsPostEmptied => s.(ringSem := s.ringSem + 1, gs := Emptied2)
    case GsEmptied2 => s.(listener := false, gs := if s.listener then PostingEmptied2 else Asleep)
    case GsPostEmptied2 => s.(vsyncSem := s.vsyncSem + 1, gs := Asleep)
  }

  function Vsyncs(q: seq<bool>): nat {
    if q == [] then 0 else One(q[0]) + Vsyncs(q[1..])
  }

  lemma {:induction false} VsyncsAppend(q: seq<bool>, b: bool)
    ensures Vsyncs(q + [b]) == Vsyncs(q) + One(b)
    decreases |q|
  {
    if q != [] {
      assert (q + [b])[1..] == q[1..] + [b];
      VsyncsAppend(q[1..], b);
    }
  }

  // ---- the frame count ----

  /** VSYNC in front of the ring is counted off already. */
  predicate CountedOff(gs: Gs) { gs == Counted || gs == PostingVsync || gs == Heard }

  /** The frame count matches the VSYNC packets in the ring. */
  ghost predicate Matches(s: State) {
    && (CountedOff(s.gs) ==> s.queue != [] && s.queue[0])
    && s.frames == Vsyncs(s.queue) - One(s.ee == Sent) - One(CountedOff(s.gs))
  }

  lemma MatchesKept(s: State, e: Step)
    requires Matches(s) && Enabled(s, e)
    ensures Matches(Next(s, e))
  {
    if OfEe(e) { EeMatches(s, e); } else { GsMatches(s, e); }
  }

  lemma EeMatches(s: State, e: Step)
    requires Matches(s) && OfEe(e) && EeEnabled(s, e)
    ensures Matches(EeNext(s, e))
  {
    hide Enabled, Next, GsNext, GsEnabled;
    VsyncsAppend(s.queue, true);
    VsyncsAppend(s.queue, false);
  }

  lemma GsMatches(s: State, e: Step)
    requires Matches(s) && !OfEe(e) && GsEnabled(s, e)
    ensures Matches(GsNext(s, e))
  {
    hide Enabled, Next, EeNext, EeEnabled;
  }

  // ---- no lost wake-up ----

  /** Exactly one token is out for an EE that waits, or is about to: the flag it set, the semaphore, or a
      GS thread about to post; and none otherwise. */
  ghost predicate Tokens(s: State) {
    && One(s.listener) + s.vsyncSem + One(s.gs == PostingVsync || s.gs == PostingEmptied2) == One(s.ee == Posting || s.ee == VsyncWait)
    && One(s.ringEnable) + s.ringSem + One(s.gs == PostingRing || s.gs == PostingLeave || s.gs == PostingEmptied)
       == One(s.ee == Kicking || s.ee == RingWait)
    && (s.gs == Clearing ==> s.ringEnable)
  }

  /** The GS thread will look at the listener flag, or at SignalRingEnable, before it sleeps. */
  predicate WillHear(gs: Gs) {
    gs == Looping || gs == Counted || gs == Tested(false) || gs == Clearing || gs == PostingRing
    || gs == Emptied || gs == PostingEmptied || gs == Emptied2
  }

  predicate WillTest(gs: Gs) {
    (WillHear(gs) && gs != PostingEmptied && gs != Emptied2)
    || gs == PostingVsync || gs == Heard || gs.Tested? || gs == Leaving
  }

  ghost predicate Wakes(s: State) {
    && (s.ee == VsyncWait && s.listener ==> s.eventSem > 0 || WillHear(s.gs))
    && (s.ee == RingWait && s.ringEnable ==> s.eventSem > 0 || WillTest(s.gs))
  }

  lemma TokensKept(s: State, e: Step)
    requires Tokens(s) && Enabled(s, e)
    ensures Tokens(Next(s, e))
  {
    if OfEe(e) { EeTokens(s, e); } else { GsTokens(s, e); }
  }

  lemma EeTokens(s: State, e: Step)
    requires Tokens(s) && OfEe(e) && EeEnabled(s, e)
    ensures Tokens(EeNext(s, e))
  {
    hide Enabled, Next, GsNext, GsEnabled;
  }

  lemma GsTokens(s: State, e: Step)
    requires Tokens(s) && !OfEe(e) && GsEnabled(s, e)
    ensures Tokens(GsNext(s, e))
  {
    hide Enabled, Next, EeNext, EeEnabled;
  }

  lemma WakesKept(s: State, e: Step)
    requires Tokens(s) && Wakes(s) && Enabled(s, e)
    ensures Wakes(Next(s, e))
  {
    if OfEe(e) { EeWakes(s, e); } else { GsWakes(s, e); }
  }

  lemma EeWakes(s: State, e: Step)
    requires Tokens(s) && Wakes(s) && OfEe(e) && EeEnabled(s, e)
    ensures Wakes(EeNext(s, e))
  {
    hide Enabled, Next, GsNext, GsEnabled;
  }

  lemma GsWakes(s: State, e: Step)
    requires Tokens(s) && Wakes(s) && !OfEe(e) && GsEnabled(s, e)
    ensures Wakes(GsNext(s, e))
  {
    hide Enabled, Next, EeNext, EeEnabled;
  }

  // ---- how many frames are queued ----

  /** The EE waits for a frame and nobody has woken it. */
  predicate Waiting(s: State) {
    s.ee == Listening || ((s.ee == Posting || s.ee == VsyncWait) && s.listener)
  }

  /** The GS thread has lowered the count, or has found the ring empty, and has yet to see to the
      listener flag. */
  predicate Between(gs: Gs) {
    gs == Counted || gs == Emptied || gs == PostingEmptied || gs == Emptied2
  }

  ghost predicate Bounded(s: State) {
    s.frames + One(Between(s.gs)) <= s.limit + if Waiting(s) then 2 else 1
  }

  ghost predicate Inv(s: State) { Matches(s) && Tokens(s) && Wakes(s) && Bounded(s) }

  lemma BoundKept(s: State, e: Step)
    requires Inv(s) && Enabled(s, e)
    ensures Bounded(Next(s, e))
  {}

  lemma StepKeeps(s: State, e: Step)
    requires Inv(s) && Enabled(s, e)
    ensures Inv(Next(s, e))
  {
    hide Next, Enabled, Matches, Tokens, Wakes, Bounded;
    MatchesKept(s, e);
    TokensKept(s, e);
    WakesKept(s, e);
    BoundKept(s, e);
  }

  ghost predicate Possible(s: State, run: seq<Step>)
    decreases |run|
  {
    run == [] || (Enabled(s, run[0]) && Possible(Next(s, run[0]), run[1..]))
  }

  ghost function After(s: State, run: seq<Step>): State
    requires Possible(s, run)
    decreases |run|
  {
    if run == [] then s else After(Next(s, run[0]), run[1..])
  }

  lemma {:induction false} RunKeeps(s: State, run: seq<Step>)
    requires Inv(s) && Possible(s, run)
    ensures Inv(After(s, run))
    decreases |run|
  {
    hide Inv, Enabled, Next;
    if run != [] {
      StepKeeps(s, run[0]);
      RunKeeps(Next(s, run[0]), run[1..]);
    }
  }

  /** The waits are sound, over every interleaving: the frame count is the number of VSYNC packets in the
      ring, but for one sent and not counted, and one counted off and not released; it never exceeds
      the limit by more than 2, nor by more than 1 while the EE runs on; and the EE never sleeps
      without a wake-up that is posted, about to be posted, or asked for from a GS thread that is
      awake or will be woken. */
  lemma WaitsAreSound(limit: nat, run: seq<Step>)
    requires Possible(Start(limit), run)
    ensures var s := After(Start(limit), run);
            && s.frames == Vsyncs(s.queue) - One(s.ee == Sent) - One(CountedOff(s.gs))
            && s.frames <= limit + 2 && (s.ee == Running ==> s.frames <= limit + 1)
            && (s.ee == VsyncWait ==>
                  s.vsyncSem > 0 || s.gs == PostingVsync || s.gs == PostingEmptied2
                  || (s.listener && (s.eventSem > 0 || WillHear(s.gs))))
            && (s.ee == RingWait ==>
                  s.ringSem > 0 || s.gs == PostingRing || s.gs == PostingLeave || s.gs == PostingEmptied
                  || (s.ringEnable && (s.eventSem > 0 || WillTest(s.gs))))
            && (s.ee == Running ==> !s.listener && s.vsyncSem == 0 && !s.ringEnable && s.ringSem == 0)
  {
    hide Possible, After, Enabled, Next;
    RunKeeps(Start(limit), run);
    SameLimit(Start(limit), run);
  }

  lemma {:induction false} SameLimit(s: State, run: seq<Step>)
    requires Possible(s, run)
    ensures After(s, run).limit == s.limit
    decreases |run|
  {
    if run != [] { SameLimit(Next(s, run[0]), run[1..]); }
  }

  /** A frame over the limit is counted in time if the GS thread is not just then between lowering the
      count, or finding the ring empty, and looking at the listener flag. */
  predicate InTime(s: State, e: Step) { e.Count? && s.frames >= s.limit ==> !Between(s.gs) }

  /** With every frame over the limit counted in time, the limit is exceeded by at most one frame, and by none while the
      EE runs. */
  ghost predicate Tight(s: State) {
    s.frames + One(Waiting(s) && Between(s.gs)) <= s.limit + One(Waiting(s))
  }

  lemma TightKept(s: State, e: Step)
    requires Inv(s) && Tight(s) && Enabled(s, e) && InTime(s, e)
    ensures Tight(Next(s, e))
  {
    if OfEe(e) { EeTight(s, e); } else { GsTight(s, e); }
  }

  lemma EeTight(s: State, e: Step)
    requires Inv(s) && Tight(s) && OfEe(e) && EeEnabled(s, e) && InTime(s, e)
    ensures Tight(EeNext(s, e))
  {
    hide Enabled, Next, GsNext, GsEnabled, Matches, Wakes;
  }

  lemma GsTight(s: State, e: Step)
    requires Inv(s) && Tight(s) && !OfEe(e) && GsEnabled(s, e)
    ensures Tight(GsNext(s, e))
  {
    hide Enabled, Next, EeNext, EeEnabled, Wakes;
  }

  ghost predicate Timely(s: State, run: seq<Step>)
    requires Possible(s, run)
    decreases |run|
  {
    run == [] || (InTime(s, run[0]) && Timely(Next(s, run[0]), run[1..]))
  }

  lemma {:induction false} TimelyFramesStayInLimit(s: State, run: seq<Step>)
    requires Inv(s) && Tight(s) && Possible(s, run) && Timely(s, run)
    ensures var t := After(s, run);
            && Tight(t) && t.limit == s.limit && t.frames <= s.limit + 1 && (t.ee == Running ==> t.frames <= s.limit)
    decreases |run|
  {
    hide Inv, Enabled, InTime;
    if run != [] {
      StepKeeps(s, run[0]);
      TightKept(s, run[0]);
      TimelyFramesStayInLimit(Next(s, run[0]), run[1..]);
    }
  }

  lemma {:induction false} Join(s: State, run: seq<Step>, more: seq<Step>)
    requires Possible(s, run) && Possible(After(s, run), more)
    ensures Possible(s, run + more) && After(s, run + more) == After(After(s, run), more)
    decreases |run|
  {
    hide Enabled, Next;
    if run != [] {
      assert (run + more)[1..] == run[1..] + more;
      Join(Next(s, run[0]), run[1..], more);
    } else {
      assert run + more == more;
    }
  }

  lemma Extend(s: State, run: seq<Step>, e: Step)
    requires Possible(s, run) && Enabled(After(s, run), e)
    ensures Possible(s, run + [e]) && After(s, run + [e]) == Next(After(s, run), e)
  {
    hide Enabled, Next;
    assert [e][1..] == [];
    Join(s, run, [e]);
  }

  /** No frame is counted in the run. */
  predicate CountsNone(run: seq<Step>) { forall i :: 0 <= i < |run| ==> !run[i].Count? }

  lemma {:induction false} CountsNoneTimely(s: State, run: seq<Step>)
    requires Possible(s, run) && CountsNone(run)
    ensures Timely(s, run)
    decreases |run|
  {
    hide Enabled, Next;
    if run != [] { CountsNoneTimely(Next(s, run[0]), run[1..]); }
  }

  /** After the frame is counted, the EE comes to run on with the limit exceeded, though every later
      frame is counted in time. */
  ghost predicate Overshoots(s: State, run: seq<Step>)
    requires Enabled(s, Count)
  {
    && Possible(Next(s, Count), run) && Timely(Next(s, Count), run)
    && After(Next(s, Count), run).ee == Running && After(Next(s, Count), run).frames > s.limit
  }

  /** The GS thread comes to see to the listener flag with the frame count as it is. */
  lemma Heeds(s: State) returns (run: seq<Step>)
    requires s.ee == Posting && s.listener && !s.ringEnable && Between(s.gs) && s.gs != PostingEmptied
    ensures Possible(s, run) && CountsNone(run)
    ensures var t := After(s, run); t.ee == Posting && t.vsyncSem > 0 && t.frames == s.frames && t.limit == s.limit
  {
    run := [];
    assert Possible(s, run) && After(s, run) == s;
    hide Possible, After, Enabled, Next;
    if s.gs == Counted {
      HeedsAfter(s, run, GsExchange, GsPostVsync);
      run := run + [GsExchange] + [GsPostVsync];
    } else {
      if s.gs == Emptied {
        assert Enabled(s, GsEmptied) && Next(s, GsEmptied) == s.(gs := Emptied2, ringEnable := false) by { GsFindsEmpty(s); }
        Extend(s, run, GsEmptied);
        run := run + [GsEmptied];
      }
      HeedsAfter(s, run, GsEmptied2, GsPostEmptied2);
      run := run + [GsEmptied2] + [GsPostEmptied2];
    }
  }

  lemma GsFindsEmpty(s: State)
    requires s.gs == Emptied && !s.ringEnable
    ensures Enabled(s, GsEmptied) && Next(s, GsEmptied) == s.(gs := Emptied2, ringEnable := false)
  {}

  /** The two steps by which the GS thread takes the flag back and posts. */
  lemma HeedsAfter(s: State, run: seq<Step>, a: Step, b: Step)
    requires Possible(s, run)
    requires var t := After(s, run); t.listener && (if a == GsExchange then t.gs == Counted else a == GsEmptied2 && t.gs == Emptied2)
    requires b == if a == GsExchange then GsPostVsync else GsPostEmptied2
    ensures Possible(s, run + [a] + [b])
    ensures var t := After(s, run); var u := After(s, run + [a] + [b]);
            u.ee == t.ee && u.vsyncSem == t.vsyncSem + 1 && u.frames == t.frames && u.limit == t.limit
  {
    hide Possible, After;
    Extend(s, run, a);
    Extend(s, run + [a], b);
  }

  /** A frame over the limit is counted in that window: the GS thread may wake the EE for the frame before
      it, so that the EE runs on. */
  lemma LateCount(s: State) returns (run: seq<Step>)
    requires Tokens(s) && s.ee == Sent && s.frames >= s.limit && Between(s.gs)
    ensures Overshoots(s, run)
    ensures var t := After(Next(s, Count), run); t.frames == s.frames + 1 && t.limit == s.limit
  {
    hide Timely;
    var u := Next(s, Count);
    assert Possible(u, []) && After(u, []) == u;
    hide Possible, After;
    Extend(u, [], Listen);
    run := [] + [Listen];
    var more := Heeds(After(u, run));
    Join(u, run, more);
    run := run + more;
    Extend(u, run, Post);
    Extend(u, run + [Post], WakeVsync);
    run := run + [Post] + [WakeVsync];
    CountsNoneTimely(u, run);
  }

  /** The condition is exact: when a frame over the limit is counted, the EE can come to run on with the
      limit exceeded if and only if it is counted in that window. */
  lemma LateCountOvershoots(s: State)
    requires Inv(s) && Tight(s) && s.ee == Sent && s.frames >= s.limit
    ensures Between(s.gs) <==> exists run :: Overshoots(s, run)
  {
    hide Matches, Wakes, Bounded, Possible, After, Timely;
    if Between(s.gs) {
      var _ := LateCount(s);
    } else {
      StepKeeps(s, Count);
      TightKept(s, Count);
      forall run | Overshoots(s, run) ensures false {
        TimelyFramesStayInLimit(Next(s, Count), run);
      }
    }
  }

  /** n frames sent while the GS thread sleeps. */
  lemma {:induction false} SendFrames(limit: nat, n: nat) returns (run: seq<Step>)
    requires n <= limit
    ensures Possible(Start(limit), run)
    ensures After(Start(limit), run) == Start(limit).(queue := After(Start(limit), run).queue, frames := n)
    ensures |After(Start(limit), run).queue| == n && (n > 0 ==> After(Start(limit), run).queue[0])
    decreases n
  {
    hide Enabled;
    run := [];
    if n > 0 {
      run := SendFrames(limit, n - 1);
      hide Possible, After;
      assert Enabled(After(Start(limit), run), SendVsync) by { Senders(After(Start(limit), run)); }
      Extend(Start(limit), run, SendVsync);
      assert Enabled(After(Start(limit), run + [SendVsync]), Count) by { Senders(After(Start(limit), run + [SendVsync])); }
      Extend(Start(limit), run + [SendVsync], Count);
      run := run + [SendVsync] + [Count];
    }
  }

  lemma Senders(s: State)
    ensures (s.ee == Running ==> Enabled(s, SendVsync)) && (s.ee == Sent ==> Enabled(s, Count))
  {}

  /** With every limit, the EE can come to run on with limit + 1 frames queued, and to have limit + 2. */
  lemma OvershootIsReachable(limit: nat) returns (run: seq<Step>)
    ensures Possible(Start(limit), run)
    ensures var s := After(Start(limit), run); s.frames == limit + 2 && s.ee == Listening
  {
    hide Possible, After, Inv, Matches, Wakes, Bounded;
    var s := Start(limit);
    run := SendFrames(limit, limit);
    Extend(s, run, SendVsync);
    run := run + [SendVsync];
    Extend(s, run, Kick);
    run := run + [Kick];
    Extend(s, run, GsWake);
    run := run + [GsWake];
    Extend(s, run, GsRead);
    run := run + [GsRead];
    Extend(s, run, Count);
    run := run + [Count];
    Extend(s, run, SendVsync);
    run := run + [SendVsync];
    assert Inv(After(s, run)) by { StartInv(limit); RunKeeps(s, run); }
    var more := LateCount(After(s, run));
    Extend(s, run, Count);
    Join(s, run + [Count], more);
    run := run + [Count] + more;
    Extend(s, run, SendVsync);
    run := run + [SendVsync];
    Extend(s, run, Count);
    run := run + [Count];
  }

  lemma StartInv(limit: nat)
    ensures Inv(Start(limit))
  {}
}
