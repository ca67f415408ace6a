/** When the refill loop of a head stops, and when it cannot. */
module Refill {
  import opened Wrappers
  import opened Sources
  import opened IndexTable
  import opened Playback
  import opened Driver
  import opened Head
  import PL = PlaybackList
  import Traces
  import TraceTheorems

  // The loop, round by round

  /** The time at which each round runs. */
  type Clock = nat -> int

  function At(e: Env, clock: Clock, t: nat): Env {
    e.(now := clock(t))
  }

  ghost function RoundAt(s: State, e: Env, clock: Clock, t: nat): (r: (State, bool))
    requires HeadInv(s) && EnvOk(e)
    ensures HeadInv(r.0) && (r.1 ==> r.0.playing == None)
  {
    RoundKeeps(s, At(e, clock, t));
    Round(s, At(e, clock, t))
  }

  /** The loop of dataRequested, at its t-th round now, ends within n rounds. */
  ghost predicate Stops(s: State, e: Env, clock: Clock, t: nat, n: nat)
    requires HeadInv(s) && EnvOk(e)
    decreases n
  {
    Free(s.hw) <= LOW_WATER
    || (n > 0 && (RoundAt(s, e, clock, t).1 || Stops(RoundAt(s, e, clock, t).0, e, clock, t + 1, n - 1)))
  }

  ghost predicate Ends(s: State, e: Env, clock: Clock, t: nat)
    requires HeadInv(s) && EnvOk(e)
  {
    exists n: nat :: Stops(s, e, clock, t, n)
  }

  /** What the loop leaves behind: little space in the driver, or nothing to play. */
  ghost function After(s: State, e: Env, clock: Clock, t: nat, n: nat): (r: State)
    requires HeadInv(s) && EnvOk(e) && Stops(s, e, clock, t, n)
    ensures HeadInv(r) && (Free(r.hw) <= 300 || r.playing == None)
    decreases n
  {
    hide HeadInv;
    if Free(s.hw) <= LOW_WATER then s
    else
      var (u, stop) := RoundAt(s, e, clock, t);
      if stop then u else After(u, e, clock, t + 1, n - 1)
  }

  lemma {:induction false} AfterOne(s: State, e: Env, clock: Clock, t: nat, m: nat, n: nat)
    requires HeadInv(s) && EnvOk(e) && Stops(s, e, clock, t, m) && Stops(s, e, clock, t, n)
    ensures After(s, e, clock, t, m) == After(s, e, clock, t, n)
    decreases n
  {
    hide HeadInv, RoundAt;
    if Free(s.hw) > LOW_WATER && !RoundAt(s, e, clock, t).1 {
      AfterOne(RoundAt(s, e, clock, t).0, e, clock, t + 1, m - 1, n - 1);
    }
  }

  ghost function AfterRefill(s: State, e: Env, clock: Clock): (r: State)
    requires HeadInv(s) && EnvOk(e) && Ends(s, e, clock, 0)
    ensures HeadInv(r) && (Free(r.hw) <= 300 || r.playing == None)
  {
    var n: nat :| Stops(s, e, clock, 0, n);
    After(s, e, clock, 0, n)
  }

  // Every frame comes from a leaf

  function LeafFrames(src: Source): set<Frame>
    decreases src, 1
  {
    if src.Static? then {src.data} else LeafFramesOf(src.kids)
  }

  function LeafFramesOf(kids: seq<Source>): (r: set<Frame>)
    ensures forall i | 0 <= i < |kids| :: LeafFrames(kids[i]) <= r
    decreases kids, 0
  {
    if kids == [] then {} else LeafFrames(kids[0]) + LeafFramesOf(kids[1..])
  }

  ghost predicate FromLeaf(src: Source, f: Option<Frame>) {
    f.Some? ==> f.value in LeafFrames(src)
  }

  lemma {:induction false} NextFromLeaf(src: Source, pb: Pb, now: int, sh: Shuffle)
    requires Match(src, pb) && Shuffles(sh)
    ensures FromLeaf(src, Next(src, pb, now, sh).0)
    decreases src, 1, 0, 0, 0
  {
    match src
    case Static(_, _, _, _, _) =>
    case Sequencer(_, _, newMode, _, kids) =>
      var switched := SeqPb(newMode, pb.pos, pb.passes, pb.tbl, pb.who, pb.draws, pb.kids);
      ResetIndexFits(switched, |kids|, sh);
      LoopFromLeaf(src, if pb.mode != newMode then ResetIndex(switched, |kids|, sh) else pb, now, sh);
    case Rotator(_, _, kids) => if |kids| == 1 { NextFromLeaf(kids[0], pb.kids[0], now, sh); }
  }

  lemma {:induction false} LoopFromLeaf(src: Source, pb: Pb, now: int, sh: Shuffle)
    requires src.Sequencer? && Match(src, pb) && Shuffles(sh)
    ensures FromLeaf(src, Loop(src, pb, now, sh).0)
    decreases src, 0, PassesLeft(src, pb), StepsLeft(src, pb), 3
  {
    if !AtEnd(pb) {
      PullFromLeaf(src, pb, now, sh);
    } else if pb.passes < src.repeats {
      PullFromLeaf(src, NewPass(src, pb, now, sh), now, sh);
    }
  }

  lemma {:induction false} PullFromLeaf(src: Source, pb: Pb, now: int, sh: Shuffle)
    requires src.Sequencer? && Match(src, pb) && Shuffles(sh) && (pb.tbl == [] || pb.pos < |pb.tbl|)
    ensures FromLeaf(src, Pull(src, pb, now, sh).0)
    decreases src, 0, PassesLeft(src, pb), if AtEnd(pb) then 1 else StepsLeft(src, pb), 2
  {
    hide LeafFrames;
    ResetIndexFits(pb, |src.kids|, sh);
    var q := Refilled(pb, |src.kids|, sh);
    var i := q.tbl[q.pos];
    var (f, kid) := Next(src.kids[i], q.kids[i], now, sh);
    NextFromLeaf(src.kids[i], q.kids[i], now, sh);
    KidLeaf(src, i, f);
    if f.None? { AdvanceFromLeaf(src, WithKid(q, i, kid), now, sh); }
  }

  lemma {:induction false} AdvanceFromLeaf(src: Source, pb: Pb, now: int, sh: Shuffle)
    requires src.Sequencer? && Match(src, pb) && Shuffles(sh) && pb.pos < |pb.tbl|
    ensures FromLeaf(src, Advance(src, pb, now, sh).0)
    decreases src, 0, PassesLeft(src, pb), |pb.tbl| - pb.pos, 1
  {
    hide LeafFrames;
    if pb.pos < |pb.tbl| - 1 {
      var q := Step(src, pb, now, sh);
      var i := q.tbl[q.pos];
      var (f, kid) := Next(src.kids[i], q.kids[i], now, sh);
      NextFromLeaf(src.kids[i], q.kids[i], now, sh);
      KidLeaf(src, i, f);
      if f.None? { AdvanceFromLeaf(src, WithKid(q, i, kid), now, sh); }
    } else {
      LoopFromLeaf(src, pb, now, sh);
    }
  }

  lemma KidLeaf(src: Source, i: nat, f: Option<Frame>)
    requires !src.Static? && i < |src.kids| && FromLeaf(src.kids[i], f)
    ensures FromLeaf(src, f)
  {
  }

  // Sources that keep the points coming

  /** Whatever frame the tree shows, it resamples to some points. */
  ghost predicate Lively(src: Source, resample: (nat, Frame) -> seq<Sample>) {
    forall k: nat, f | f in LeafFrames(src) :: resample(k, f) != []
  }

  /** A new playback of the tree begins with a frame, when it is pulled from at the time it is made. */
  ghost predicate Starts(src: Source, sh: Shuffle)
    requires Playable(src) && Shuffles(sh)
  {
    forall made: nat, t: int :: Next(src, TraceTheorems.Loaded(src, [made], t, t, sh), t, sh).0.Some?
  }

  /** For a tame tree that is so exactly when its list has a frame at all. */
  lemma TameStarts(src: Source, sh: Shuffle)
    requires Playable(src) && Shuffles(sh) && Traces.Tame(src) && TraceTheorems.NewPrimed(src)
    ensures Starts(src, sh) <==> Traces.FramesOf(src) != []
  {
    hide Next, Traces.FramesOf;
    forall made: nat, t: int
      ensures Next(src, TraceTheorems.Loaded(src, [made], t, t, sh), t, sh).0.Some? <==> Traces.FramesOf(src) != []
    {
      TraceTheorems.CreatedPrimed(src, [made], t);
      Traces.ResetStarts(src, CreatePlayback(src, [made], t), t, sh);
      var pb := TraceTheorems.Loaded(src, [made], t, t, sh);
      Traces.TameGives(src, pb, sh);
      assert Traces.GivesNow(src, pb, Traces.FramesOf(src), sh, t);
    }
    var first := Next(src, TraceTheorems.Loaded(src, [0], 0, 0, sh), 0, sh).0;
  }

  /** A static frame with a dwell timer starts if and only if its dwell time is not negative when taken as signed. */
  lemma DwellStarts(src: Source, sh: Shuffle)
    requires src.Static? && src.useDwell && Shuffles(sh)
    ensures Starts(src, sh) <==> src.dwell < 0x8000_0000
  {
    assert Next(src, TraceTheorems.Loaded(src, [0], 0, 0, sh), 0, sh).0.Some? <==> src.dwell < 0x8000_0000;
  }

  ghost predicate SlotLive(e: Env, slot: int)
    requires EnvOk(e)
  {
    0 <= slot < |e.slots| && e.slots[slot].Some?
    && Lively(e.slots[slot].value, e.resample) && Starts(e.slots[slot].value, e.sh)
  }

  /** What is playing and every selected slot is live. */
  ghost predicate AllLive(s: State, e: Env)
    requires EnvOk(e)
  {
    (forall x | x in s.list.selections :: SlotLive(e, x)) && PlayingLive(s.playing, e)
  }

  ghost predicate PlayingLive(p: Option<Playing>, e: Env) {
    p.Some? && p.value.Playing? ==> Lively(p.value.src, e.resample)
  }

  lemma PullLive(p: Option<Playing>, e: Env)
    requires PlayingOk(p) && EnvOk(e) && PlayingLive(p, e)
    ensures var (f, q) := PullFrame(p, e);
            PlayingLive(q, e) && (f.Some? ==> forall k: nat :: e.resample(k, f.value) != [])
  {
    hide Next, LeafFrames;
    if p.Some? && p.value.Playing? { NextFromLeaf(p.value.src, p.value.pb, e.now, e.sh); }
  }

  lemma NextSourceLive(s: State, e: Env)
    requires HeadInv(s) && EnvOk(e) && s.buf == [] && AllLive(s, e)
    ensures var t := NextSource(s, e);
            (forall x | x in t.list.selections :: x in s.list.selections)
            && PlayingOk(t.playing) && PlayingLive(t.playing, e)
            && (t.playing.Some? ==> PullFrame(t.playing, e).0.Some?)
  {
    hide PL.Fetch, Next, Lively, Conserved, CreatePlayback, Playback.Reset;
    PL.FetchLogs(s.list, e.rnd);
    var list := PL.Fetch(s.list, e.rnd);
    if list.current > -1 {
      assert list.current in list.selections;
      assert SlotLive(e, list.current);
      NewPlaybackStarts(e, list.current, s.made);
    }
  }

  lemma NewPlaybackStarts(e: Env, slot: nat, made: nat)
    requires EnvOk(e) && SlotLive(e, slot)
    ensures var p := Some(NewPlayback(e, slot, made));
            PlayingLive(p, e) && PullFrame(p, e).0.Some?
  {
    hide Next, Lively;
  }

  lemma RefetchLive(s: State, e: Env)
    requires HeadInv(s) && EnvOk(e) && AllLive(s, e) && s.idx == |s.buf|
    ensures var (t, stop) := Refetch(s, e);
            AllLive(t, e) && t.hw == s.hw && (stop || t.idx < |t.buf|)
  {
    hide Fated, NextSource, PL.Inv, SlotLive, Next, Lively;
    PullLive(s.playing, e);
    var (f, playing) := PullFrame(s.playing, e);
    var t := s.(buf := [], idx := 0, playing := playing);
    if f.None? {
      NextSourceKeeps(t, e);
      NextSourceLive(t, e);
      PullLive(NextSource(t, e).playing, e);
    }
  }

  // When the loop ends

  /** The state between the two halves of a round. */
  function Sent(s: State): State
    requires HeadInv(s)
  {
    var (hw, used) := Take(s.hw, s.buf, s.idx);
    s.(hw := hw, idx := s.idx + used, fate := s.fate + Repeat(true, used))
  }

  /** The first half hands over all the driver has space for, and so leaves points unsent only in a full driver. */
  lemma SentSpace(s: State)
    requires HeadInv(s)
    ensures HeadInv(Sent(s)) && 0 <= Free(Sent(s).hw) <= Free(s.hw)
    ensures s.idx < |s.buf| && Free(s.hw) > 0 ==> Free(Sent(s).hw) < Free(s.hw)
    ensures s.idx == |s.buf| ==> Sent(s).idx == |s.buf|
    ensures Sent(s).list == s.list && Sent(s).playing == s.playing && Sent(s).killed == s.killed && Sent(s).buf == s.buf
  {
    hide Fated, PL.Inv;
    SendKeeps(s);
  }

  lemma RoundIs(s: State, e: Env)
    requires HeadInv(s) && EnvOk(e)
    ensures HeadInv(Sent(s))
    ensures Round(s, e) == if Sent(s).idx >= |Sent(s).buf| then Refetch(Sent(s), e) else (Sent(s), false)
  {
    hide Conserved, PL.Inv, Refetch;
    SendKeeps(s);
  }

  /** A round never gives back space, and uses some if there are points to send. */
  lemma RoundSpace(s: State, e: Env)
    requires HeadInv(s) && EnvOk(e) && Free(s.hw) > LOW_WATER
    ensures 0 <= Free(Round(s, e).0.hw) <= Free(s.hw)
    ensures s.idx < |s.buf| ==> Free(Round(s, e).0.hw) < Free(s.hw)
  {
    hide Round, Refetch, HeadInv, Take;
    RoundIs(s, e);
    SentSpace(s);
    HeadIndex(Sent(s));
    if Sent(s).idx >= |Sent(s).buf| { RefetchKeeps(Sent(s), e); }
  }

  lemma HeadIndex(s: State)
    requires HeadInv(s)
    ensures s.idx <= |s.buf| && PlayingOk(s.playing) && PL.Inv(s.list)
  {
  }

  /** A killed head ends the loop in its first round, whatever is selected. */
  lemma KilledEnds(s: State, e: Env, clock: Clock, t: nat)
    requires HeadInv(s) && EnvOk(e) && s.killed
    ensures Stops(s, e, clock, t, 1)
  {
    hide Conserved, PL.Inv, PL.Fetch, Round;
    EmptyRound(s, At(e, clock, t));
    assert Refetch(s, At(e, clock, t)).1;
  }

  /** With nothing in the buffer a round hands over nothing. */
  lemma EmptyRound(s: State, e: Env)
    requires HeadInv(s) && EnvOk(e) && s.buf == []
    ensures HeadInv(s.(idx := 0)) && Round(s, e) == Refetch(s, e)
  {
    hide Refetch, Conserved, PL.Inv;
    assert s.buf[0..0] == [] && s.hw.queue + [] == s.hw.queue;
    assert s.fate + Head.Repeat(true, 0) == s.fate;
  }

  /** Each of the next n rounds that fetches gets points to send, or ends the loop with no playback. */
  ghost predicate Yields(s: State, e: Env, clock: Clock, t: nat, n: nat)
    requires HeadInv(s) && EnvOk(e)
    decreases n
  {
    n == 0 || Free(s.hw) <= LOW_WATER
    || (var (u, stop) := RoundAt(s, e, clock, t);
        stop || (u.idx < |u.buf| && Yields(u, e, clock, t + 1, n - 1)))
  }

  /** Every fetch that the loop makes yields points or no playback. */
  ghost predicate Productive(s: State, e: Env, clock: Clock, t: nat)
    requires HeadInv(s) && EnvOk(e)
  {
    forall n: nat :: Yields(s, e, clock, t, n)
  }

  /** A round for each point of space above the mark, and one more if the buffer has to be filled first. */
  function RoundsNeeded(s: State): int {
    Free(s.hw) - LOW_WATER + if s.idx < |s.buf| then 0 else 1
  }

  lemma {:induction false} YieldsStops(s: State, e: Env, clock: Clock, t: nat, n: nat)
    requires HeadInv(s) && EnvOk(e) && Yields(s, e, clock, t, n) && n >= RoundsNeeded(s)
    ensures Stops(s, e, clock, t, n)
    decreases n
  {
    hide HeadInv, Round;
    HeadIndex(s);
    if Free(s.hw) > LOW_WATER && !RoundAt(s, e, clock, t).1 {
      RoundSpace(s, At(e, clock, t));
      YieldsStops(RoundAt(s, e, clock, t).0, e, clock, t + 1, n - 1);
    }
  }

  /** If every fetch yields points or no playback the loop ends, within a round for each point of space. */
  lemma ProductiveEnds(s: State, e: Env, clock: Clock, t: nat)
    requires HeadInv(s) && EnvOk(e) && Productive(s, e, clock, t)
    ensures Stops(s, e, clock, t, if RoundsNeeded(s) >= 0 then RoundsNeeded(s) else 0)
  {
    YieldsStops(s, e, clock, t, if RoundsNeeded(s) >= 0 then RoundsNeeded(s) else 0);
  }

  lemma LiveRound(s: State, e: Env)
    requires HeadInv(s) && EnvOk(e) && AllLive(s, e) && Free(s.hw) > LOW_WATER
    ensures var (u, stop) := Round(s, e); AllLive(u, e) && (stop || u.idx < |u.buf|)
  {
    hide Round, Refetch, HeadInv, Take, SlotLive, PlayingLive;
    RoundIs(s, e);
    SentSpace(s);
    HeadIndex(Sent(s));
    assert AllLive(Sent(s), e);
    if Sent(s).idx >= |Sent(s).buf| { RefetchLive(Sent(s), e); }
  }

  lemma LiveAt(s: State, e: Env, clock: Clock, t: nat)
    requires EnvOk(e)
    ensures AllLive(s, At(e, clock, t)) <==> AllLive(s, e)
  {
    hide Lively, Starts;
    assert forall x | x in s.list.selections :: SlotLive(At(e, clock, t), x) <==> SlotLive(e, x);
  }

  /** So it does when what is playing and every selected slot is live. */
  lemma {:induction false} LiveYields(s: State, e: Env, clock: Clock, t: nat, n: nat)
    requires HeadInv(s) && EnvOk(e) && AllLive(s, e)
    ensures Yields(s, e, clock, t, n)
    decreases n
  {
    hide HeadInv, Round, AllLive;
    if n > 0 && Free(s.hw) > LOW_WATER {
      LiveAt(s, e, clock, t);
      LiveRound(s, At(e, clock, t));
      LiveAt(RoundAt(s, e, clock, t).0, e, clock, t);
      LiveYields(RoundAt(s, e, clock, t).0, e, clock, t + 1, n - 1);
    }
  }

  lemma AllLiveEnds(s: State, e: Env, clock: Clock, t: nat)
    requires HeadInv(s) && EnvOk(e) && AllLive(s, e)
    ensures Productive(s, e, clock, t) && Ends(s, e, clock, t)
  {
    forall n: nat ensures Yields(s, e, clock, t, n) {
      LiveYields(s, e, clock, t, n);
    }
    ProductiveEnds(s, e, clock, t);
  }

  // When it does not

  predicate SlotEmpty(e: Env, slot: int) {
    slot < 0 || slot >= |e.slots| || e.slots[slot].None?
  }

  /** A slot the head gets no frame from: it is empty, or its new playback returns null on the two calls the head makes
      before it asks the list again. */
  ghost predicate SlotDud(e: Env, slot: int)
    requires EnvOk(e)
  {
    SlotEmpty(e, slot) || Silent(e.slots[slot].value, e.sh)
  }

  ghost predicate Silent(src: Source, sh: Shuffle)
    requires Playable(src) && Shuffles(sh)
  {
    forall made: nat, t: int ::
      var pb := TraceTheorems.Loaded(src, [made], t, t, sh);
      Next(src, pb, t, sh).0.None? && Mute(src, Next(src, pb, t, sh).1, sh)
  }

  ghost predicate Mute(src: Source, pb: Pb, sh: Shuffle)
    requires Match(src, pb) && Shuffles(sh)
  {
    forall at: int :: Next(src, pb, at, sh).0.None?
  }

  /** Nothing is playing, or a playback that returns null. */
  ghost predicate Quiet(p: Option<Playing>, e: Env)
    requires PlayingOk(p) && EnvOk(e)
  {
    p.Some? && p.value.Playing? ==> Mute(p.value.src, p.value.pb, e.sh)
  }

  /** A slot with a tame tree whose frames all resample to points is one or the other: live if its list has a frame, a
      dud if not. */
  lemma TameSlot(e: Env, slot: nat)
    requires EnvOk(e) && slot < |e.slots| && e.slots[slot].Some?
    requires Traces.Tame(e.slots[slot].value) && TraceTheorems.NewPrimed(e.slots[slot].value)
    requires Lively(e.slots[slot].value, e.resample)
    ensures SlotLive(e, slot) <==> Traces.FramesOf(e.slots[slot].value) != []
    ensures SlotDud(e, slot) <==> Traces.FramesOf(e.slots[slot].value) == []
  {
    hide Next, Traces.FramesOf, Lively, Traces.Tame, TraceTheorems.NewPrimed, TraceTheorems.Loaded;
    var src := e.slots[slot].value;
    TameStarts(src, e.sh);
    if Traces.FramesOf(src) == [] {
      forall made: nat, t: int
        ensures Next(src, TraceTheorems.Loaded(src, [made], t, t, e.sh), t, e.sh).0.None?
        ensures Mute(src, Next(src, TraceTheorems.Loaded(src, [made], t, t, e.sh), t, e.sh).1, e.sh)
      {
        TameSilent(src, made, t, e.sh);
      }
    } else {
      assert Next(src, TraceTheorems.Loaded(src, [0], 0, 0, e.sh), 0, e.sh).0.Some?;
    }
  }

  lemma TameSilent(src: Source, made: nat, t: int, sh: Shuffle)
    requires Playable(src) && Shuffles(sh) && Traces.Tame(src) && TraceTheorems.NewPrimed(src)
    requires Traces.FramesOf(src) == []
    ensures Next(src, TraceTheorems.Loaded(src, [made], t, t, sh), t, sh).0.None?
    ensures Mute(src, Next(src, TraceTheorems.Loaded(src, [made], t, t, sh), t, sh).1, sh)
  {
    hide Next, Traces.FramesOf, Traces.Tame, TraceTheorems.NewPrimed, CreatePlayback;
    TraceTheorems.CreatedPrimed(src, [made], t);
    Traces.ResetStarts(src, CreatePlayback(src, [made], t), t, sh);
    var pb := TraceTheorems.Loaded(src, [made], t, t, sh);
    Traces.TameGives(src, pb, sh);
    assert Traces.GivesNow(src, pb, [], sh, t);
    var next := Next(src, pb, t, sh).1;
    Traces.TameGives(src, next, sh);
    forall later: int ensures Next(src, next, later, sh).0.None? {
      assert Traces.GivesNow(src, next, [], sh, later);
    }
  }

  /** A sequencer with one child and no repeats, the number it is made with, is a dud whatever its child shows. */
  lemma OneChildIsDud(e: Env, slot: nat)
    requires EnvOk(e) && slot < |e.slots| && e.slots[slot].Some?
    requires e.slots[slot].value.Sequencer? && |e.slots[slot].value.kids| == 1 && e.slots[slot].value.repeats == 0
    ensures SlotDud(e, slot)
  {
    hide Next;
    var src := e.slots[slot].value;
    forall made: nat, t: int
      ensures Next(src, TraceTheorems.Loaded(src, [made], t, t, e.sh), t, e.sh).0.None?
      ensures Mute(src, Next(src, TraceTheorems.Loaded(src, [made], t, t, e.sh), t, e.sh).1, e.sh)
    {
      var pb := TraceTheorems.Loaded(src, [made], t, t, e.sh);
      ResetIndexFits(WithPos(CreatePlayback(src, [made], t), 0, 0), 1, e.sh);
      var q := Traces.NextSingle(src, pb, t, e.sh);
      forall later: int ensures Next(src, q, later, e.sh).0.None? {
        var r := Traces.NextSingle(src, q, later, e.sh);
      }
    }
  }

  lemma NewPlaybackDud(e: Env, slot: nat, made: nat)
    requires EnvOk(e) && SlotDud(e, slot)
    ensures var p := Some(NewPlayback(e, slot, made));
            PullFrame(p, e).0.None? && PullFrame(p, e).1.Some? && Quiet(PullFrame(p, e).1, e)
  {
    hide Next;
  }

  /** What is playing gives points, or nothing at all. */
  ghost predicate PlayingSorted(p: Option<Playing>, e: Env)
    requires PlayingOk(p) && EnvOk(e)
  {
    PlayingLive(p, e) || Quiet(p, e)
  }

  /** What the list plays next. */
  ghost function NextUp(list: PL.State, e: Env): int
    requires EnvOk(e)
  {
    PL.Fetch(list, e.rnd).current
  }

  ghost predicate SlotSorted(e: Env, slot: int)
    requires EnvOk(e)
  {
    slot == -1 || SlotLive(e, slot) || SlotDud(e, slot)
  }

  /** Asking the list: no slot ends the loop, a live one fills the buffer, a dud leaves it empty. */
  lemma FetchTurn(s: State, e: Env)
    requires HeadInv(s) && EnvOk(e) && !s.killed && s.idx == |s.buf| && PullFrame(s.playing, e).0.None?
    requires SlotSorted(e, NextUp(s.list, e))
    ensures var (u, stop) := Refetch(s, e);
            u.list == PL.Fetch(s.list, e.rnd) && u.hw == s.hw && !u.killed && PlayingOk(u.playing)
            && PlayingSorted(u.playing, e) && (stop <==> NextUp(s.list, e) == -1)
            && (SlotLive(e, NextUp(s.list, e)) ==> u.idx < |u.buf|)
            && (SlotDud(e, NextUp(s.list, e)) ==> u.buf == [] && Quiet(u.playing, e))
  {
    hide PL.Fetch, Next, Lively, Conserved, SlotLive, SlotDud, Mute, NewPlayback, PL.Inv;
    var t := s.(buf := [], idx := 0, playing := PullFrame(s.playing, e).1);
    PL.FetchLogs(s.list, e.rnd);
    PL.ApplyKeeps(s.list, PL.OpFetch, e.rnd);
    var slot := NextUp(s.list, e);
    CurrentIsSlot(PL.Fetch(s.list, e.rnd));
    if slot > -1 {
      if SlotLive(e, slot) {
        NewPlaybackStarts(e, slot, s.made);
        PullLive(Some(NewPlayback(e, slot, s.made)), e);
      }
      if SlotDud(e, slot) { NewPlaybackDud(e, slot, s.made); }
    } else {
      NotASlot(e);
    }
  }

  lemma NotASlot(e: Env)
    requires EnvOk(e)
    ensures SlotDud(e, -1) && !SlotLive(e, -1)
  {
  }

  lemma CurrentIsSlot(list: PL.State)
    requires PL.Inv(list)
    ensures list.current >= -1
  {
  }

  /** One round of a head whose playback is sorted and whose next slot is: the loop ends when there is no next slot;
      else the playback goes on, or the next slot is taken. */
  lemma Turn(s: State, e: Env)
    requires HeadInv(s) && EnvOk(e) && !s.killed && PlayingSorted(s.playing, e) && SlotSorted(e, NextUp(s.list, e))
    ensures var (u, stop) := Round(s, e);
            !u.killed && PlayingOk(u.playing) && PlayingSorted(u.playing, e)
            && (stop || (u.list == s.list && u.idx < |u.buf|)
                || (u.list == PL.Fetch(s.list, e.rnd) && NextUp(s.list, e) != -1
                    && (SlotLive(e, NextUp(s.list, e)) ==> u.idx < |u.buf|)))
  {
    hide Round, Take, SlotLive, SlotDud, Mute, Next, Lively, PL.Fetch, Fated, NextSource;
    RoundIs(s, e);
    SentSpace(s);
    var m := Sent(s);
    if m.idx >= |m.buf| {
      if PullFrame(m.playing, e).0.None? {
        FetchTurn(m, e);
      } else {
        if Quiet(m.playing, e) { QuietPull(m.playing, e); }
        PullLive(m.playing, e);
      }
    }
  }

  lemma QuietPull(p: Option<Playing>, e: Env)
    requires PlayingOk(p) && EnvOk(e) && Quiet(p, e)
    ensures PullFrame(p, e).0.None?
  {
    hide Next;
  }

  ghost predicate Sorted(list: PL.State, e: Env)
    requires EnvOk(e)
  {
    forall x | x in list.selections :: SlotLive(e, x) || SlotDud(e, x)
  }

  lemma SortedAt(s: State, e: Env, clock: Clock, t: nat)
    requires EnvOk(e) && PlayingOk(s.playing)
    ensures Sorted(s.list, At(e, clock, t)) <==> Sorted(s.list, e)
    ensures PlayingSorted(s.playing, At(e, clock, t)) <==> PlayingSorted(s.playing, e)
    ensures Quiet(s.playing, At(e, clock, t)) <==> Quiet(s.playing, e)
    ensures forall x: int :: SlotLive(At(e, clock, t), x) <==> SlotLive(e, x)
    ensures forall x: int :: SlotDud(At(e, clock, t), x) <==> SlotDud(e, x)
    ensures NextUp(s.list, At(e, clock, t)) == NextUp(s.list, e)
  {
    hide Lively, Starts, Silent, Mute;
  }

  // The next slot in each step mode

  /** Looping without shuffling, the head goes to the back and the new head is next. */
  lemma LoopNext(list: PL.State, e: Env)
    requires EnvOk(e) && list.stepMode == PL.LOOP && list.selMode != PL.SHUFFLE && list.selections != []
    ensures var next := PL.Fetch(list, e.rnd);
            next.selections == list.selections[1..] + [list.selections[0]] && next.current == next.selections[0]
            && next.stepMode == list.stepMode && next.selMode == list.selMode
  {
  }

  /** Held by hand or by the beat, what is next stays next. */
  lemma HoldNext(list: PL.State, e: Env)
    requires EnvOk(e) && (list.stepMode == PL.MANUAL || list.stepMode == PL.BEAT) && NextUp(list, e) != -1
    ensures var next := PL.Fetch(list, e.rnd);
            next.stepMode == list.stepMode && PL.Fetch(next, e.rnd) == next && next.current == NextUp(list, e)
  {
    hide PL.NextIdle;
    if list.current == -1 { PL.NextIdleModes(list, e.rnd); }
  }

  /** The fetches that once mode has left before its list is used up. */
  function OnceLeft(list: PL.State): nat {
    |list.selections| + if list.current == -1 && list.selections != [] then 1 else 0
  }

  lemma OnceNext(list: PL.State, e: Env)
    requires EnvOk(e) && list.stepMode == PL.ONCE && PL.Inv(list)
    ensures var next := PL.Fetch(list, e.rnd);
            next.stepMode == PL.ONCE && (NextUp(list, e) == -1 || OnceLeft(next) < OnceLeft(list))
            && (forall x | x in next.selections :: x in list.selections)
            && (NextUp(list, e) != -1 ==> NextUp(list, e) in list.selections)
  {
    hide PL.Fetch;
    PL.OnceFetch(list, e.rnd);
  }

  // The loops that end

  lemma StopsLater(s: State, e: Env, clock: Clock, t: nat, n: nat)
    requires HeadInv(s) && EnvOk(e) && Free(s.hw) > LOW_WATER
    requires RoundAt(s, e, clock, t).1 || Stops(RoundAt(s, e, clock, t).0, e, clock, t + 1, n)
    ensures Stops(s, e, clock, t, n + 1)
  {
    hide HeadInv, RoundAt;
  }

  lemma TurnAt(s: State, e: Env, clock: Clock, t: nat)
    requires HeadInv(s) && EnvOk(e) && !s.killed && PlayingSorted(s.playing, e) && SlotSorted(e, NextUp(s.list, e))
    requires Free(s.hw) > LOW_WATER
    ensures var (u, stop) := RoundAt(s, e, clock, t);
            !u.killed && PlayingOk(u.playing) && PlayingSorted(u.playing, e) && 0 <= Free(u.hw) <= Free(s.hw)
            && s.idx <= |s.buf| && (s.idx < |s.buf| ==> Free(u.hw) < Free(s.hw))
            && (stop || (u.list == s.list && u.idx < |u.buf|)
                || (u.list == PL.Fetch(s.list, e.rnd) && NextUp(s.list, e) != -1
                    && (SlotLive(e, NextUp(s.list, e)) ==> u.idx < |u.buf|)))
  {
    hide HeadInv, Round, PlayingSorted, SlotLive, SlotDud, PL.Fetch;
    HeadIndex(s);
    SortedAt(s, e, clock, t);
    Turn(s, At(e, clock, t));
    RoundSpace(s, At(e, clock, t));
    SortedAt(RoundAt(s, e, clock, t).0, e, clock, t);
  }

  /** In once mode the list is used up in the end. */
  lemma {:induction false} OnceEnds(s: State, e: Env, clock: Clock, t: nat) returns (n: nat)
    requires HeadInv(s) && EnvOk(e) && !s.killed && PlayingSorted(s.playing, e) && Sorted(s.list, e)
    requires s.list.stepMode == PL.ONCE
    ensures Stops(s, e, clock, t, n)
    decreases if Free(s.hw) > 0 then Free(s.hw) else 0, OnceLeft(s.list), if s.idx < |s.buf| then 0 else 1
  {
    hide HeadInv, RoundAt, PlayingSorted, SlotLive, SlotDud, PL.Fetch, PL.Inv, OnceLeft;
    n := 0;
    if Free(s.hw) > LOW_WATER {
      HeadIndex(s);
      OnceNext(s.list, e);
      TurnAt(s, e, clock, t);
      var (u, stop) := RoundAt(s, e, clock, t);
      if !stop { n := OnceEnds(u, e, clock, t + 1); }
      StopsLater(s, e, clock, t, n);
      n := n + 1;
    }
  }

  /** Held on a live slot, each turn to it fills the buffer. */
  lemma {:induction false} HoldEnds(s: State, e: Env, clock: Clock, t: nat) returns (n: nat)
    requires HeadInv(s) && EnvOk(e) && !s.killed && PlayingSorted(s.playing, e)
    requires (s.list.stepMode == PL.MANUAL || s.list.stepMode == PL.BEAT) && SlotLive(e, NextUp(s.list, e))
    ensures Stops(s, e, clock, t, n)
    decreases if Free(s.hw) > 0 then Free(s.hw) else 0, if s.idx < |s.buf| then 0 else 1
  {
    hide HeadInv, RoundAt, PlayingSorted, SlotLive, SlotDud, PL.Fetch;
    n := 0;
    if Free(s.hw) > LOW_WATER {
      NotASlot(e);
      HoldNext(s.list, e);
      TurnAt(s, e, clock, t);
      var (u, stop) := RoundAt(s, e, clock, t);
      if !stop { n := HoldEnds(u, e, clock, t + 1); }
      StopsLater(s, e, clock, t, n);
      n := n + 1;
    }
  }

  /** The place of the first live slot. */
  ghost function FirstLive(a: seq<PL.Slot>, e: Env): (i: nat)
    requires EnvOk(e)
    ensures i <= |a| && (i < |a| ==> SlotLive(e, a[i])) && forall j | 0 <= j < i :: !SlotLive(e, a[j])
  {
    if a == [] || SlotLive(e, a[0]) then 0 else 1 + FirstLive(a[1..], e)
  }

  /** How many fetches before a live slot is taken. */
  ghost function LoopLeft(list: PL.State, e: Env): nat
    requires EnvOk(e) && list.selections != []
  {
    FirstLive(list.selections[1..] + [list.selections[0]], e)
  }

  ghost predicate SomeLive(a: seq<PL.Slot>, e: Env)
    requires EnvOk(e)
  {
    exists x | x in a :: SlotLive(e, x)
  }

  lemma LoopNearer(list: PL.State, e: Env)
    requires EnvOk(e) && list.stepMode == PL.LOOP && list.selMode != PL.SHUFFLE && SomeLive(list.selections, e)
    ensures var next := PL.Fetch(list, e.rnd);
            next.stepMode == PL.LOOP && next.selMode == list.selMode && SomeLive(next.selections, e)
            && NextUp(list, e) in list.selections && (forall x | x in next.selections :: x in list.selections)
            && (SlotLive(e, NextUp(list, e)) || LoopLeft(next, e) < LoopLeft(list, e))
  {
    hide PL.Fetch, SlotLive;
    LoopNext(list, e);
    var a := list.selections;
    var b := a[1..] + [a[0]];
    var live :| live in a && SlotLive(e, live);
    assert live in b;
    assert FirstLive(b, e) < |b|;
    if !SlotLive(e, b[0]) {
      var c := b[1..] + [b[0]];
      var i := FirstLive(b, e);
      assert c[i - 1] == b[i];
    }
  }

  /** Looping over a list with a live slot, that slot comes round. */
  lemma {:induction false} LoopEnds(s: State, e: Env, clock: Clock, t: nat) returns (n: nat)
    requires HeadInv(s) && EnvOk(e) && !s.killed && PlayingSorted(s.playing, e) && Sorted(s.list, e)
    requires s.list.stepMode == PL.LOOP && s.list.selMode != PL.SHUFFLE && SomeLive(s.list.selections, e)
    ensures Stops(s, e, clock, t, n)
    decreases if Free(s.hw) > 0 then Free(s.hw) else 0, if s.idx < |s.buf| then 0 else 1 + LoopLeft(s.list, e)
  {
    hide HeadInv, RoundAt, PlayingSorted, SlotLive, SlotDud, PL.Fetch, SomeLive, LoopLeft;
    n := 0;
    if Free(s.hw) > LOW_WATER {
      LoopNearer(s.list, e);
      TurnAt(s, e, clock, t);
      var (u, stop) := RoundAt(s, e, clock, t);
      if !stop { n := LoopEnds(u, e, clock, t + 1); }
      StopsLater(s, e, clock, t, n);
      n := n + 1;
    }
  }

  // The loops that do not

  /** Nothing to send, nothing playing, and only duds to come. */
  ghost predicate Starved(s: State, e: Env)
    requires HeadInv(s) && EnvOk(e)
  {
    !s.killed && s.buf == [] && Quiet(s.playing, e) && s.list.stepMode != PL.ONCE && s.list.selections != []
    && SlotDud(e, NextUp(s.list, e)) && (s.list.stepMode == PL.LOOP ==> DudsOnly(s.list, e))
  }

  /** Looping comes to duds only: there is nothing else, or the shuffle favours one. */
  ghost predicate DudsOnly(list: PL.State, e: Env)
    requires EnvOk(e)
  {
    (forall x | x in list.selections :: SlotDud(e, x)) || (list.selMode == PL.SHUFFLE && FavoursDud(list.selections, e))
  }

  ghost predicate FavoursDud(a: seq<PL.Slot>, e: Env)
    requires EnvOk(e)
  {
    exists dud | dud in a :: SlotDud(e, dud) && Favours(e.rnd, dud)
  }

  /** A shuffle that puts a slot first wherever it is. */
  ghost predicate Favours(rnd: PL.Shuffler, slot: PL.Slot) {
    forall d: nat, a: seq<PL.Slot> | slot in a :: rnd(d, a) != [] && rnd(d, a)[0] == slot
  }

  lemma DudsOnlyKept(list: PL.State, e: Env)
    requires EnvOk(e) && PL.Inv(list) && list.stepMode == PL.LOOP && list.selections != [] && DudsOnly(list, e)
    ensures var next := PL.Fetch(list, e.rnd); DudsOnly(next, e) && SlotDud(e, NextUp(list, e))
  {
    hide SlotDud, PL.Inv, PL.Distinct;
    var next := PL.Fetch(list, e.rnd);
    FetchAgain(list, e.rnd);
    PL.SameElements(list.selections, next.selections);
    if !(forall x | x in list.selections :: SlotDud(e, x)) {
      var dud :| dud in list.selections && SlotDud(e, dud) && Favours(e.rnd, dud);
      assert dud in list.selections[1..] + [list.selections[0]];
    }
  }

  lemma FetchAgain(s: PL.State, rnd: PL.Shuffler)
    requires PL.Shuffles(rnd) && PL.Inv(s) && s.stepMode != PL.ONCE && s.selections != []
    ensures var t := PL.Fetch(s, rnd);
            t.stepMode == s.stepMode && t.selections != [] && t.current in t.selections && t.current in s.selections
            && forall x | x in t.selections :: x in s.selections
  {
    PL.NextIdleKeeps(s, rnd);
    PL.FetchLogs(s, rnd);
    PL.RotateKeeps(s, rnd);
  }

  lemma StarvedRound(s: State, e: Env)
    requires HeadInv(s) && EnvOk(e) && Starved(s, e)
    ensures HeadInv(Round(s, e).0)
    ensures !Round(s, e).1 && Starved(Round(s, e).0, e) && Round(s, e).0.hw == s.hw
  {
    hide Round, Refetch, PL.Fetch, SlotDud, SlotLive, Mute, Next, Conserved, PL.Inv, DudsOnly;
    RoundKeeps(s, e);
    EmptyRound(s, e);
    QuietPull(s.playing, e);
    FetchTurn(s, e);
    var next := PL.Fetch(s.list, e.rnd);
    FetchAgain(s.list, e.rnd);
    RoundKeepsList(s, e);
    FetchAgain(next, e.rnd);
    if s.list.stepMode == PL.LOOP {
      DudsOnlyKept(s.list, e);
      DudsOnlyKept(next, e);
    } else {
      HoldNext(s.list, e);
    }
  }

  lemma RoundKeepsList(s: State, e: Env)
    requires HeadInv(s) && EnvOk(e)
    ensures PL.Inv(PL.Fetch(s.list, e.rnd))
  {
    hide PL.Fetch, Conserved, PL.Inv;
    PL.ApplyKeeps(s.list, PL.OpFetch, e.rnd);
  }

  lemma {:induction false} StarvedHangs(s: State, e: Env, clock: Clock, t: nat, n: nat)
    requires HeadInv(s) && EnvOk(e) && Starved(s, e) && Free(s.hw) > LOW_WATER
    ensures !Stops(s, e, clock, t, n)
    decreases n
  {
    hide Round, HeadInv, Starved;
    if n > 0 {
      StarvedAt(s, e, clock, t);
      StarvedRound(s, At(e, clock, t));
      StarvedAt(RoundAt(s, e, clock, t).0, e, clock, t);
      StarvedHangs(RoundAt(s, e, clock, t).0, e, clock, t + 1, n - 1);
    }
  }

  lemma StarvedAt(s: State, e: Env, clock: Clock, t: nat)
    requires HeadInv(s) && EnvOk(e)
    ensures Starved(s, At(e, clock, t)) <==> Starved(s, e)
  {
    hide SlotDud, SlotLive, Quiet, Conserved, PL.Inv, PL.Fetch;
    SortedAt(s, e, clock, t);
  }

  // The two together

  /** Once mode; or no slot is selected; or, looping, some selected slot is live; or, held, the next one is. */
  ghost predicate CanEnd(list: PL.State, e: Env)
    requires EnvOk(e)
  {
    list.stepMode == PL.ONCE || list.selections == []
    || if list.stepMode == PL.LOOP then SomeLive(list.selections, e) else SlotLive(e, NextUp(list, e))
  }

  /** For a head with nothing to send and nothing playing, without shuffling, and with live slots and duds selected in
      any mixture: the refill loop ends if and only if that holds. */
  lemma EndsExactly(s: State, e: Env, clock: Clock, t: nat)
    requires HeadInv(s) && EnvOk(e) && !s.killed && s.buf == [] && Quiet(s.playing, e) && Free(s.hw) > LOW_WATER
    requires s.list.selMode != PL.SHUFFLE && Sorted(s.list, e)
    ensures Ends(s, e, clock, t) <==> CanEnd(s.list, e)
  {
    hide Stops, PL.Fetch, SlotDud, SlotLive, Quiet, Conserved, PL.Inv;
    if s.list.stepMode == PL.ONCE {
      var n := OnceEnds(s, e, clock, t);
    } else if s.list.selections == [] {
      NothingSelected(s, e, clock, t);
    } else if CanEnd(s.list, e) {
      if s.list.stepMode == PL.LOOP {
        var n := LoopEnds(s, e, clock, t);
      } else {
        var n := HoldEnds(s, e, clock, t);
      }
    } else {
      FetchAgain(s.list, e.rnd);
      forall n: nat ensures !Stops(s, e, clock, t, n) {
        StarvedHangs(s, e, clock, t, n);
      }
    }
  }

  lemma NothingSelected(s: State, e: Env, clock: Clock, t: nat)
    requires HeadInv(s) && EnvOk(e) && !s.killed && s.buf == [] && Quiet(s.playing, e) && Free(s.hw) > LOW_WATER
    requires s.list.selections == []
    ensures Stops(s, e, clock, t, 1)
  {
    hide Round, Refetch, SlotDud, SlotLive, Quiet, Conserved;
    var e1 := At(e, clock, t);
    assert NextUp(s.list, e1) == -1;
    SortedAt(s, e, clock, t);
    QuietPull(s.playing, e1);
    EmptyRound(s, e1);
    FetchTurn(s, e1);
  }

  // Shuffling

  /** The same surroundings with another shuffle. */
  function With(e: Env, rnd: PL.Shuffler): Env {
    e.(rnd := rnd)
  }

  lemma WithSame(s: State, e: Env, rnd: PL.Shuffler)
    requires EnvOk(e) && PL.Shuffles(rnd) && PlayingOk(s.playing)
    ensures Sorted(s.list, With(e, rnd)) <==> Sorted(s.list, e)
    ensures PlayingSorted(s.playing, With(e, rnd)) <==> PlayingSorted(s.playing, e)
    ensures Quiet(s.playing, With(e, rnd)) <==> Quiet(s.playing, e)
    ensures forall x: int :: SlotLive(With(e, rnd), x) <==> SlotLive(e, x)
    ensures forall x: int :: SlotDud(With(e, rnd), x) <==> SlotDud(e, x)
  {
    hide Lively, Starts, Silent, Mute;
  }

  /** If every selected slot is live each fetch fills the buffer, whatever the modes. */
  lemma {:induction false} EachLiveEnds(s: State, e: Env, clock: Clock, t: nat) returns (n: nat)
    requires HeadInv(s) && EnvOk(e) && !s.killed && PlayingSorted(s.playing, e)
    requires s.list.stepMode != PL.ONCE && s.list.selections != []
    requires forall x | x in s.list.selections :: SlotLive(e, x)
    ensures Stops(s, e, clock, t, n)
    decreases if Free(s.hw) > 0 then Free(s.hw) else 0, if s.idx < |s.buf| then 0 else 1
  {
    hide HeadInv, RoundAt, PlayingSorted, SlotLive, SlotDud, PL.Fetch, PL.Inv;
    n := 0;
    if Free(s.hw) > LOW_WATER {
      HeadIndex(s);
      FetchAgain(s.list, e.rnd);
      TurnAt(s, e, clock, t);
      var (u, stop) := RoundAt(s, e, clock, t);
      if !stop { n := EachLiveEnds(u, e, clock, t + 1); }
      StopsLater(s, e, clock, t, n);
      n := n + 1;
    }
  }

  /** A shuffle that favours this slot. */
  function Favour(slot: PL.Slot): PL.Shuffler {
    (d: nat, a: seq<PL.Slot>) => if slot in a then [slot] + PL.Without(a, PL.IndexOf(a, slot)) else a
  }

  lemma FavourFavours(slot: PL.Slot)
    ensures PL.Shuffles(Favour(slot)) && Favours(Favour(slot), slot)
  {
    forall d: nat, a: seq<PL.Slot>
      ensures multiset(Favour(slot)(d, a)) == multiset(a)
    {
      var i := PL.IndexOf(a, slot);
      if slot in a {
        assert a == a[..i] + [slot] + a[i + 1..];
      }
    }
  }

  /** Once mode; or no slot is selected; or, held on a slot, that slot is live; or all selected slots are. */
  ghost predicate MustEnd(list: PL.State, e: Env)
    requires EnvOk(e)
  {
    list.stepMode == PL.ONCE || list.selections == []
    || if list.stepMode != PL.LOOP && list.current != -1 then SlotLive(e, list.current)
       else forall x | x in list.selections :: SlotLive(e, x)
  }

  /** The same for a list that is shuffled: however it is, the refill loop ends, if and only if that holds. */
  lemma EndsForEveryShuffle(s: State, e: Env, clock: Clock, t: nat)
    requires HeadInv(s) && EnvOk(e) && !s.killed && s.buf == [] && Quiet(s.playing, e) && Free(s.hw) > LOW_WATER
    requires s.list.selMode == PL.SHUFFLE && Sorted(s.list, e)
    ensures (forall rnd: PL.Shuffler | PL.Shuffles(rnd) :: Ends(s, With(e, rnd), clock, t)) <==> MustEnd(s.list, e)
  {
    hide Stops, PL.Fetch, SlotDud, SlotLive, Quiet, HeadInv, MustEnd, PL.Shuffles;
    if MustEnd(s.list, e) {
      forall rnd: PL.Shuffler | PL.Shuffles(rnd)
        ensures Ends(s, With(e, rnd), clock, t)
      {
        MustEndEnds(s, e, clock, t, rnd);
      }
    } else {
      var rnd := CanHang(s, e, clock, t);
      assert !Ends(s, With(e, rnd), clock, t);
    }
  }

  lemma MustEndEnds(s: State, e: Env, clock: Clock, t: nat, rnd: PL.Shuffler)
    requires HeadInv(s) && EnvOk(e) && !s.killed && s.buf == [] && Quiet(s.playing, e) && Free(s.hw) > LOW_WATER
    requires PL.Shuffles(rnd) && Sorted(s.list, e) && MustEnd(s.list, e)
    ensures Ends(s, With(e, rnd), clock, t)
  {
    hide Stops, SlotDud, SlotLive, Quiet, Conserved, PL.Inv, PL.NextIdle, PL.NextRunning;
    WithSame(s, e, rnd);
    if s.list.stepMode == PL.ONCE {
      var n := OnceEnds(s, With(e, rnd), clock, t);
    } else if s.list.selections == [] {
      NothingSelected(s, With(e, rnd), clock, t);
    } else if s.list.stepMode != PL.LOOP && s.list.current != -1 {
      var n := HoldEnds(s, With(e, rnd), clock, t);
    } else {
      var n := EachLiveEnds(s, With(e, rnd), clock, t);
    }
  }

  /** A shuffle for which it does not end. */
  lemma CanHang(s: State, e: Env, clock: Clock, t: nat) returns (rnd: PL.Shuffler)
    requires HeadInv(s) && EnvOk(e) && !s.killed && s.buf == [] && Quiet(s.playing, e) && Free(s.hw) > LOW_WATER
    requires s.list.selMode == PL.SHUFFLE && Sorted(s.list, e) && !MustEnd(s.list, e)
    ensures PL.Shuffles(rnd) && !Ends(s, With(e, rnd), clock, t)
  {
    hide Stops, SlotDud, SlotLive, Quiet, HeadInv, PL.Inv, PL.Fetch, Starved, Favour, Favours, PL.Shuffles;
    HeadIndex(s);
    HeldIsSelected(s.list);
    var dud :| dud in s.list.selections && SlotDud(e, dud)
               && (s.list.stepMode != PL.LOOP && s.list.current != -1 ==> dud == s.list.current);
    rnd := Favour(dud);
    FavourFavours(dud);
    WithSame(s, e, rnd);
    FavouredStarves(s, e, dud);
    forall n: nat ensures !Stops(s, With(e, rnd), clock, t, n) {
      StarvedHangs(s, With(e, rnd), clock, t, n);
    }
  }

  lemma HeldIsSelected(list: PL.State)
    requires PL.Inv(list)
    ensures list.selections != [] && list.current != -1 ==> list.current in list.selections
  {
  }

  lemma FavouredStarves(s: State, e: Env, dud: PL.Slot)
    requires HeadInv(s) && EnvOk(e) && !s.killed && s.buf == [] && Quiet(s.playing, e)
    requires s.list.selMode == PL.SHUFFLE && s.list.stepMode != PL.ONCE && dud in s.list.selections && SlotDud(e, dud)
    requires s.list.stepMode != PL.LOOP && s.list.current != -1 ==> dud == s.list.current
    requires PL.Shuffles(Favour(dud)) && Favours(Favour(dud), dud)
    ensures Starved(s, With(e, Favour(dud)))
  {
    hide SlotDud, SlotLive, Quiet, Conserved, PL.Inv, Favour;
    var e1 := With(e, Favour(dud));
    WithSame(s, e, Favour(dud));
    assert FavoursDud(s.list.selections, e1);
    assert dud in s.list.selections[1..] + [s.list.selections[0]];
  }

  /** Starting up and selecting one slot is enough: if the slot is a dud, the next refill does not end. */
  lemma SelectDudHangs(size: nat, pos: PL.Slot, e: Env, clock: Clock)
    requires EnvOk(e) && SlotDud(e, pos) && size > LOW_WATER
    ensures HeadInv(Start(size)) && OpOk(OpList(PL.OpSelect(pos, true), e.rnd))
    ensures var s := Apply(Start(size), OpList(PL.OpSelect(pos, true), e.rnd));
            HeadInv(s) && !Ends(s, e, clock, 0)
  {
    hide SlotDud, SlotLive, Stops, HeadInv, Apply, Starved;
    StartInv(size);
    Head.ApplyKeeps(Start(size), OpList(PL.OpSelect(pos, true), e.rnd));
    var s := Apply(Start(size), OpList(PL.OpSelect(pos, true), e.rnd));
    SelectStarves(size, pos, e);
    forall n: nat ensures !Stops(s, e, clock, 0, n) {
      StarvedHangs(s, e, clock, 0, n);
    }
  }

  lemma SelectStarves(size: nat, pos: PL.Slot, e: Env)
    requires EnvOk(e) && SlotDud(e, pos) && HeadInv(Start(size))
    ensures var s := Apply(Start(size), OpList(PL.OpSelect(pos, true), e.rnd));
            HeadInv(s) && Starved(s, e) && Free(s.hw) == size
  {
    hide SlotDud, SlotLive, HeadInv, PL.Select, PL.Fetch, PL.Inv;
    var op := PL.OpSelect(pos, true);
    Head.ApplyKeeps(Start(size), OpList(op, e.rnd));
    SelectFirst(pos, e.rnd);
    PL.ApplyLogs(PL.NEW, op, e.rnd);
    var s := Apply(Start(size), OpList(op, e.rnd));
    assert s.list == PL.Select(PL.NEW, pos, e.rnd);
    HeadIndex(s);
    FetchAgain(s.list, e.rnd);
  }

  lemma SelectFirst(pos: PL.Slot, rnd: PL.Shuffler)
    requires PL.Shuffles(rnd)
    ensures var s := PL.Select(PL.NEW, pos, rnd); s.selections == [pos] && s.stepMode == PL.LOOP
  {
  }
}
