/** What a head puts out: the frames its playbacks show, one slot of the play list after the other, resampled. */
module Output {
  import opened Wrappers
  import opened Sources
  import opened IndexTable
  import opened Playback
  import opened Traces
  import opened TraceTheorems
  import opened Driver
  import opened Head
  import PL = PlaybackList
  import ListSteps

  /** The points of frames that are resampled one after the other, the first one as the k-th. */
  function Points(e: Env, k: nat, fs: Frames): seq<Sample>
    decreases |fs|
  {
    if fs == [] then [] else e.resample(k, fs[0]) + Points(e, k + 1, fs[1..])
  }

  lemma {:induction false} PointsAppend(e: Env, k: nat, fs: Frames, gs: Frames)
    ensures Points(e, k, fs + gs) == Points(e, k, fs) + Points(e, k + |fs|, gs)
    decreases |fs|
  {
    if fs == [] {
      assert fs + gs == gs;
    } else {
      PointsAppend(e, k + 1, fs[1..], gs);
      assert (fs + gs)[1..] == fs[1..] + gs;
    }
  }

  lemma PointsOne(e: Env, k: nat, f: Frame)
    ensures Points(e, k, [f]) == e.resample(k, f) && Points(e, k, []) == []
  {
    assert Points(e, k, [f]) == e.resample(k, f) + Points(e, k + 1, []);
  }

  /** Refills and hardware ticks, with the same slots, shuffles and resampler throughout, at any times. */
  ghost predicate Undisturbed(ops: seq<Op>, e: Env) {
    forall i | 0 <= i < |ops| :: ops[i].OpTick? || (ops[i].OpRound? && ops[i].e == e.(now := ops[i].e.now))
  }

  // One round

  /** A playing head with its buffer sent takes the next frame of its playback; on null it asks the list, makes a
      playback of the slot it gets, resets it, and takes the first frame of that. */
  lemma RefetchPulls(s: State, e: Env)
    requires HeadInv(s) && EnvOk(e) && !s.killed && s.idx == |s.buf| && s.playing.Some? && s.playing.value.Playing?
    ensures var (src, pb) := (s.playing.value.src, s.playing.value.pb);
            var (f, next) := Next(src, pb, e.now, e.sh);
            var t := Refetch(s, e).0;
            !t.killed
            && if f.Some? then t.playing == Some(Playing(src, next)) && t.list == s.list && Gained(s, t, e, [f.value])
               else FromList(s, t, e)
  {
    hide Next, Conserved, PL.Inv, NextSource, Loaded;
    var (f, next) := Next(s.playing.value.src, s.playing.value.pb, e.now, e.sh);
    if f.None? {
      AskPulls(s.(buf := [], idx := 0, playing := PullFrame(s.playing, e).1), e);
    } else {
      PointsOne(e, s.runs, f.value);
    }
  }

  /** So does a head that plays nothing, or an empty slot. */
  lemma RefetchAsks(s: State, e: Env)
    requires HeadInv(s) && EnvOk(e) && !s.killed && s.idx == |s.buf| && (s.playing == None || s.playing == Some(Blank))
    ensures !Refetch(s, e).0.killed && FromList(s, Refetch(s, e).0, e)
  {
    hide Next, Conserved, PL.Inv, NextSource, Loaded;
    AskPulls(s.(buf := [], idx := 0), e);
  }

  /** The head has fetched the points of these frames. */
  predicate Gained(s: State, t: State, e: Env, fs: Frames) {
    t.fetched == s.fetched + Points(e, s.runs, fs) && t.runs == s.runs + |fs|
  }

  ghost predicate FromList(s: State, t: State, e: Env)
    requires EnvOk(e)
  {
    t.list == PL.Fetch(s.list, e.rnd) && t.made == (if t.list.current < 0 then s.made else s.made + 1)
    && var slot := t.list.current;
       if slot < 0 then t.playing == None && Gained(s, t, e, [])
       else if slot >= |e.slots| || e.slots[slot].None? then t.playing == Some(Blank) && Gained(s, t, e, [])
       else
         var src := e.slots[slot].value;
         var (f, next) := Next(src, Loaded(src, [s.made], e.now, e.now, e.sh), e.now, e.sh);
         t.playing == Some(Playing(src, next)) && Gained(s, t, e, if f.Some? then [f.value] else [])
  }

  lemma AskPulls(s: State, e: Env)
    requires EnvOk(e) && !s.killed && s.buf == [] && s.idx == 0
    ensures var u := NextSource(s, e);
            var (g, again) := PullFrame(u.playing, e);
            var v := u.(playing := again);
            !v.killed && FromList(s, if g.Some? then Resampled(v, g.value, e) else v, e)
  {
    hide Next, Conserved, PL.Fetch, Loaded;
    PL.FetchLogs(s.list, e.rnd);
    var (g, again) := PullFrame(NextSource(s, e).playing, e);
    assert s.fetched + [] == s.fetched;
    if g.Some? { PointsOne(e, s.runs, g.value); }
  }

  // A run with one playback

  /** The results of calls of nextFrame at these times. */
  function CallsAt(src: Source, pb: Pb, times: seq<int>, sh: Shuffle): (r: (seq<Option<Frame>>, Pb))
    requires Match(src, pb) && Shuffles(sh)
    ensures |r.0| == |times| && Match(src, r.1)
    decreases |times|
  {
    if times == [] then ([], pb)
    else
      var (f, next) := Next(src, pb, times[0], sh);
      var rest := CallsAt(src, next, times[1..], sh);
      ([f] + rest.0, rest.1)
  }

  lemma {:induction false} CallsAtClock(src: Source, pb: Pb, times: seq<int>, clock: nat -> int, t: nat, sh: Shuffle)
    requires Match(src, pb) && Shuffles(sh) && forall i | 0 <= i < |times| :: times[i] == clock(t + i)
    ensures CallsAt(src, pb, times, sh) == Calls(src, pb, clock, t, |times|, sh)
    decreases |times|
  {
    hide Next;
    if times != [] {
      assert times[0] == clock(t + 0);
      forall i | 0 <= i < |times[1..]|
        ensures times[1..][i] == clock(t + 1 + i)
      {
        assert times[1..][i] == times[i + 1] == clock(t + (i + 1));
      }
      CallsAtClock(src, Next(src, pb, times[0], sh).1, times[1..], clock, t + 1, sh);
    }
  }

  function Somes(fs: Frames): seq<Option<Frame>> {
    seq(|fs|, i requires 0 <= i < |fs| => Some(fs[i]))
  }

  lemma SomesCons(f: Frame, fs: Frames)
    ensures Somes([f] + fs) == [Some(f)] + Somes(fs)
  {
  }

  /** What a head gains from a playback over a run: the frames of its calls of nextFrame, in order; it keeps the
      playback as the calls leave it, or else the next call returned null and it has asked the list. */
  ghost predicate Pulled(s: State, t: State, e: Env, src: Source, pb: Pb, times: seq<int>, fs: Frames, asked: bool)
    requires Match(src, pb) && Shuffles(e.sh)
  {
    var r := CallsAt(src, pb, times, e.sh);
    if asked then r.0 == Somes(fs) + [None] && s.fetched + Points(e, s.runs, fs) <= t.fetched
    else r.0 == Somes(fs) && t.playing == Some(Playing(src, r.1)) && t.list == s.list && Gained(s, t, e, fs)
  }

  lemma PulledStep(s: State, u: State, t: State, e: Env, src: Source, pb: Pb, now: int, times: seq<int>, fs: Frames,
                   asked: bool)
    requires Match(src, pb) && Shuffles(e.sh)
    requires Next(src, pb, now, e.sh).0.Some? && u.list == s.list && Gained(s, u, e, [Next(src, pb, now, e.sh).0.value])
    requires Pulled(u, t, e, src, Next(src, pb, now, e.sh).1, times, fs, asked)
    ensures Pulled(s, t, e, src, pb, [now] + times, [Next(src, pb, now, e.sh).0.value] + fs, asked)
  {
    hide Next, Somes, Points;
    var (f, next) := Next(src, pb, now, e.sh);
    SomesCons(f.value, fs);
    PointsAppend(e, s.runs, [f.value], fs);
    assert ([now] + times)[1..] == times;
    Regroup([f], Somes(fs), [None]);
    Regroup(s.fetched, Points(e, s.runs, [f.value]), Points(e, s.runs + 1, fs));
  }

  /** Over refills and ticks what a head has fetched only grows. */
  lemma {:induction false} FetchedGrows(s: State, ops: seq<Op>)
    requires HeadInv(s) && OpsOk(ops) && forall i | 0 <= i < |ops| :: ops[i].OpTick? || ops[i].OpRound?
    ensures s.fetched <= Run(s, ops).fetched
    decreases |ops|
  {
    hide Round, HeadInv;
    if ops != [] {
      Head.ApplyKeeps(s, ops[0]);
      if ops[0].OpRound? { RoundGrows(s, ops[0].e); }
      FetchedGrows(Apply(s, ops[0]), ops[1..]);
    }
  }

  lemma RoundGrows(s: State, e: Env)
    requires HeadInv(s) && EnvOk(e)
    ensures s.fetched <= Round(s, e).0.fetched
  {
    hide Conserved, PL.Inv, PL.Fetch;
  }

  /** The first half of a round changes nothing that plays. */
  lemma RoundCases(s: State, e: Env) returns (m: State)
    requires HeadInv(s) && EnvOk(e)
    ensures HeadInv(m) && m.playing == s.playing && m.list == s.list && m.killed == s.killed && m.made == s.made
    ensures m.fetched == s.fetched && m.runs == s.runs && m.idx <= |m.buf|
    ensures Round(s, e).0 == if m.idx == |m.buf| then Refetch(m, e).0 else m
  {
    hide Conserved, PL.Inv, Refetch;
    SendKeeps(s);
    var (hw, used) := Take(s.hw, s.buf, s.idx);
    m := s.(hw := hw, idx := s.idx + used, fate := s.fate + Head.Repeat(true, used));
  }

  /** From a playing head, over any run of refills and ticks: what it fetches are the points of the frames that calls of
      nextFrame return from its playback on, each resampled once and in order. */
  lemma {:induction false} HeadPulls(s: State, ops: seq<Op>, e: Env)
      returns (times: seq<int>, fs: Frames, asked: bool)
    requires HeadInv(s) && OpsOk(ops) && EnvOk(e) && Undisturbed(ops, e)
    requires !s.killed && s.playing.Some? && s.playing.value.Playing?
    ensures Pulled(s, Run(s, ops), e, s.playing.value.src, s.playing.value.pb, times, fs, asked)
    decreases |ops|
  {
    hide Round, HeadInv, Refetch, Next, Pulled, Gained, FromList, Apply;
    var src, pb := s.playing.value.src, s.playing.value.pb;
    HeadPlayingOk(s);
    times, fs, asked := [], [], false;
    if ops == [] {
      NothingPulled(s, e, src, pb);
    } else {
      Head.ApplyKeeps(s, ops[0]);
      var u := Apply(s, ops[0]);
      TailUndisturbed(ops, e);
      var turned := RoundTurn(s, ops[0], e);
      if !turned {
        times, fs, asked := HeadPulls(u, ops[1..], e);
        PulledSame(s, u, Run(s, ops), e, src, pb, times, fs, asked);
      } else {
        var now := ops[0].e.now;
        var (f, next) := Next(src, pb, now, e.sh);
        if f.Some? {
          times, fs, asked := HeadPulls(u, ops[1..], e);
          PulledStep(s, u, Run(s, ops), e, src, pb, now, times, fs, asked);
          times, fs := [now] + times, [f.value] + fs;
        } else {
          FetchedGrows(u, ops[1..]);
          times, asked := [now], true;
          PulledNull(s, u, Run(s, ops), e, src, pb, now);
        }
      }
    }
  }

  lemma HeadPlayingOk(s: State)
    requires HeadInv(s)
    ensures PlayingOk(s.playing)
  {
  }

  lemma TailUndisturbed(ops: seq<Op>, e: Env)
    requires ops != [] && Undisturbed(ops, e)
    ensures Undisturbed(ops[1..], e) && (ops[0].OpTick? || (ops[0].OpRound? && ops[0].e == e.(now := ops[0].e.now)))
    ensures forall i | 0 <= i < |ops[1..]| :: ops[1..][i].OpTick? || ops[1..][i].OpRound?
  {
    forall i | 0 <= i < |ops[1..]|
      ensures ops[1..][i] == ops[i + 1]
    {
    }
  }

  lemma NothingPulled(s: State, e: Env, src: Source, pb: Pb)
    requires Match(src, pb) && Shuffles(e.sh) && s.playing == Some(Playing(src, pb))
    ensures Pulled(s, s, e, src, pb, [], [], false)
  {
    assert s.fetched + [] == s.fetched;
  }

  lemma PulledSame(s: State, u: State, t: State, e: Env, src: Source, pb: Pb, times: seq<int>, fs: Frames, asked: bool)
    requires Match(src, pb) && Shuffles(e.sh) && Pulled(u, t, e, src, pb, times, fs, asked)
    requires u.list == s.list && u.fetched == s.fetched && u.runs == s.runs
    ensures Pulled(s, t, e, src, pb, times, fs, asked)
  {
    hide Next, Points, Somes;
  }

  lemma PulledNull(s: State, u: State, t: State, e: Env, src: Source, pb: Pb, now: int)
    requires Match(src, pb) && Shuffles(e.sh) && Next(src, pb, now, e.sh).0.None?
    requires s.fetched <= t.fetched
    ensures Pulled(s, t, e, src, pb, [now], [], true)
  {
    hide Next;
    assert CallsAt(src, Next(src, pb, now, e.sh).1, [], e.sh).0 == [];
    assert Somes([]) + [None] == [None] && s.fetched + [] == s.fetched;
  }

  /** What one step does to a playing head: nothing, or one call of nextFrame. */
  lemma RoundTurn(s: State, op: Op, e: Env) returns (turned: bool)
    requires HeadInv(s) && OpOk(op) && EnvOk(e) && !s.killed && s.playing.Some? && s.playing.value.Playing?
    requires op.OpTick? || (op.OpRound? && op.e == e.(now := op.e.now))
    ensures Match(s.playing.value.src, s.playing.value.pb)
    ensures var t := Apply(s, op);
            !t.killed
            && if !turned then t.playing == s.playing && t.list == s.list && t.fetched == s.fetched && t.runs == s.runs
               else op.OpRound?
                    && var (f, next) := Next(s.playing.value.src, s.playing.value.pb, op.e.now, e.sh);
                       if f.Some? then t.playing == Some(Playing(s.playing.value.src, next)) && t.list == s.list
                                       && Gained(s, t, e, [f.value])
                       else FromList(s, t, op.e) && s.fetched <= t.fetched
  {
    hide Round, Conserved, PL.Inv, Refetch, Next, FromList;
    turned := false;
    if op.OpRound? && Free(s.hw) > LOW_WATER {
      var m := RoundCases(s, op.e);
      RoundGrows(s, op.e);
      if m.idx == |m.buf| {
        turned := true;
        RefetchPulls(m, op.e);
        FromSame(m, s, Refetch(m, op.e).0, op.e);
        PointsSame(e, op.e);
      }
    }
  }

  lemma FromSame(m: State, s: State, t: State, e: Env)
    requires EnvOk(e) && m.list == s.list && m.made == s.made && m.fetched == s.fetched && m.runs == s.runs
    ensures FromList(m, t, e) <==> FromList(s, t, e)
  {
    hide Next, Loaded, PL.Fetch;
  }

  lemma PointsSame(e: Env, e1: Env)
    requires e1.resample == e.resample
    ensures forall k: nat, f: Frame :: Points(e1, k, [f]) == Points(e, k, [f])
  {
    forall k: nat, f: Frame
      ensures Points(e1, k, [f]) == Points(e, k, [f])
    {
      PointsOne(e, k, f);
      PointsOne(e1, k, f);
    }
  }

  // A run over the slots of the list

  /** What a slot shows up to its null: the list of its tree, or nothing if it is empty. */
  function SlotFrames(e: Env, slot: int): Frames {
    if 0 <= slot < |e.slots| && e.slots[slot].Some? then FramesOf(e.slots[slot].value) else []
  }

  function AllFrames(e: Env, slots: seq<int>): Frames {
    if slots == [] then [] else SlotFrames(e, slots[0]) + AllFrames(e, slots[1..])
  }

  /** Every slot is empty or has a tree that plays in order. */
  ghost predicate TameSlots(e: Env) {
    forall i | 0 <= i < |e.slots| && e.slots[i].Some? :: Tame(e.slots[i].value) && NewPrimed(e.slots[i].value)
  }

  /** What is playing has these frames left up to its null. */
  ghost predicate Shows(p: Option<Playing>, e: Env, left: Frames)
    requires PlayingOk(p) && Shuffles(e.sh)
  {
    if p.Some? && p.value.Playing? then Tame(p.value.src) && Gives(p.value.src, p.value.pb, left, e.sh) else left == []
  }

  /** From one state to another the list was asked so often and these frames were shown; what was left and the slots it
      named amount to what was shown and what is left. */
  ghost predicate Played(s: State, t: State, e: Env, before: Frames, asks: nat, shown: Frames, after: Frames)
    requires EnvOk(e) && PlayingOk(t.playing)
  {
    var (slots, list) := PL.Fetches(s.list, asks, e.rnd);
    t.list == list && before + AllFrames(e, slots) == shown + after && Gained(s, t, e, shown)
    && Shows(t.playing, e, after) && !t.killed
  }

  lemma NewShows(e: Env, slot: nat, made: nat, now: int)
    requires EnvOk(e) && TameSlots(e) && slot < |e.slots| && e.slots[slot].Some?
    ensures var src, list := e.slots[slot].value, SlotFrames(e, slot);
            var (f, next) := Next(src, Loaded(src, [made], now, now, e.sh), now, e.sh);
            (if list == [] then f == None else f == Some(list[0])) && Tame(src) && Gives(src, next, Tail(list), e.sh)
  {
    hide Next, FramesOf, Tame, NewPrimed, CreatePlayback;
    var src, list := e.slots[slot].value, SlotFrames(e, slot);
    CreatedPrimed(src, [made], now);
    ResetStarts(src, CreatePlayback(src, [made], now), now, e.sh);
    var pb := Loaded(src, [made], now, now, e.sh);
    TameGives(src, pb, e.sh);
    assert GivesNow(src, pb, list, e.sh, now);
    if list == [] { TameGives(src, Next(src, pb, now, e.sh).1, e.sh); }
  }

  /** Asking the list shows the first frame of the slot it names. */
  lemma AskShows(s: State, t: State, e: Env, now: int)
    requires EnvOk(e) && TameSlots(e) && FromList(s, t, e.(now := now)) && PlayingOk(t.playing) && !t.killed
    ensures var list := SlotFrames(e, PL.Fetch(s.list, e.rnd).current);
            Played(s, t, e, [], 1, First(list), Tail(list))
  {
    hide Next, FramesOf, PL.Fetch, Gives, Tame, NewPrimed, Loaded, Points;
    var slot := PL.Fetch(s.list, e.rnd).current;
    var list := SlotFrames(e, slot);
    OneFetch(s.list, e.rnd);
    assert AllFrames(e, [slot]) == list + AllFrames(e, []);
    PointsOther(e, e.(now := now), s.runs, First(list));
    if 0 <= slot < |e.slots| && e.slots[slot].Some? { NewShows(e, slot, s.made, now); }
  }

  lemma OneFetch(list: PL.State, rnd: PL.Shuffler)
    requires PL.Shuffles(rnd)
    ensures PL.Fetches(list, 1, rnd) == ([PL.Fetch(list, rnd).current], PL.Fetch(list, rnd))
  {
    hide PL.Fetch;
    assert PL.Fetches(PL.Fetch(list, rnd), 0, rnd) == ([], PL.Fetch(list, rnd));
    assert [PL.Fetch(list, rnd).current] + [] == [PL.Fetch(list, rnd).current];
  }

  lemma {:induction false} PointsOther(e: Env, e1: Env, k: nat, fs: Frames)
    requires e1.resample == e.resample
    ensures Points(e1, k, fs) == Points(e, k, fs)
    decreases |fs|
  {
    if fs != [] { PointsOther(e, e1, k + 1, fs[1..]); }
  }

  lemma StepShows(s: State, op: Op, e: Env, left: Frames) returns (asks: nat, shown: Frames, after: Frames)
    requires HeadInv(s) && OpOk(op) && EnvOk(e) && TameSlots(e) && !s.killed && Shows(s.playing, e, left)
    requires op.OpTick? || (op.OpRound? && op.e == e.(now := op.e.now))
    ensures asks <= 1 && HeadInv(Apply(s, op)) && PlayingOk(Apply(s, op).playing)
    ensures Played(s, Apply(s, op), e, left, asks, shown, after)
    ensures asks == 1 ==> left == []
  {
    hide Round, Conserved, PL.Inv, Refetch, Next, FromList, Gives, Tame, PL.Fetch, TameSlots, FramesOf, AllFrames;
    Head.ApplyKeeps(s, op);
    HeadPlayingOk(Apply(s, op));
    asks, shown, after := 0, [], left;
    var t := Apply(s, op);
    assert AllFrames(e, []) == [] by { NoFrames(e); }
    assert left + [] == [] + left && s.fetched + [] == s.fetched;
    if op.OpRound? && Free(s.hw) > LOW_WATER {
      var m := RoundCases(s, op.e);
      if m.idx == |m.buf| {
        if s.playing.Some? && s.playing.value.Playing? {
          RefetchPulls(m, op.e);
          GivesAt(s.playing.value.src, s.playing.value.pb, left, e.sh, op.e.now);
        } else {
          RefetchAsks(m, op.e);
        }
        if left != [] {
          shown, after := [left[0]], left[1..];
          PointsOther(e, op.e, s.runs, shown);
          assert left + [] == shown + after;
        } else {
          FromSame(m, s, t, op.e);
          AskShows(s, t, e, op.e.now);
          var list := SlotFrames(e, PL.Fetch(s.list, e.rnd).current);
          asks, shown, after := 1, First(list), Tail(list);
        }
      }
    }
  }

  lemma NoFrames(e: Env)
    ensures AllFrames(e, []) == []
  {
  }

  lemma PlayedOn(s: State, u: State, t: State, e: Env, left: Frames, asks: nat, shown: Frames, middle: Frames,
                 more: nat, later: Frames, after: Frames)
    requires EnvOk(e) && PlayingOk(u.playing) && PlayingOk(t.playing) && asks <= 1 && (asks == 1 ==> left == [])
    requires Played(s, u, e, left, asks, shown, middle) && Played(u, t, e, middle, more, later, after)
    ensures Played(s, t, e, left, asks + more, shown + later, after)
  {
    hide PL.Fetch, Shows, Points, SlotFrames;
    PointsAppend(e, s.runs, shown, later);
    Regroup(s.fetched, Points(e, s.runs, shown), Points(e, u.runs, later));
    var rest := AllFrames(e, PL.Fetches(u.list, more, e.rnd).0);
    Regroup(shown, later, after);
    NoFrames(e);
    if asks == 0 {
      assert left + [] == left;
    } else {
      OneFetch(s.list, e.rnd);
      var slot := PL.Fetch(s.list, e.rnd).current;
      assert AllFrames(e, [slot]) == SlotFrames(e, slot) + AllFrames(e, []);
      assert PL.Fetches(s.list, 1 + more, e.rnd).0 == [slot] + PL.Fetches(u.list, more, e.rnd).0;
      assert AllFrames(e, [slot] + PL.Fetches(u.list, more, e.rnd).0) == SlotFrames(e, slot) + rest;
      Regroup(shown, middle, rest);
    }
  }

  /** The head plays its list. Over any run of refills and ticks, with trees that play in order in the slots, the frames
      that are resampled are those left of what was playing, then those of the slots that the list names, one after the
      other, each complete and once; what is left of the last one is still to come. */
  lemma {:induction false} HeadPlays(s: State, ops: seq<Op>, e: Env, left: Frames)
      returns (asks: nat, shown: Frames, after: Frames)
    requires HeadInv(s) && OpsOk(ops) && EnvOk(e) && Undisturbed(ops, e)
    requires TameSlots(e) && !s.killed && Shows(s.playing, e, left)
    ensures PlayingOk(Run(s, ops).playing) && Played(s, Run(s, ops), e, left, asks, shown, after)
    decreases |ops|
  {
    hide Round, HeadInv, Apply, Shows, TameSlots, Gained, AllFrames, PL.Fetch, PL.Fetches, Played;
    HeadPlayingOk(s);
    if ops == [] {
      asks, shown, after := 0, [], left;
      NothingPlayed(s, e, left);
    } else {
      TailUndisturbed(ops, e);
      var middle: Frames, more: nat, later: Frames;
      asks, shown, middle := StepShows(s, ops[0], e, left);
      var u := Apply(s, ops[0]);
      PlayedShows(s, u, e, left, asks, shown, middle);
      more, later, after := HeadPlays(u, ops[1..], e, middle);
      PlayedOn(s, u, Run(s, ops), e, left, asks, shown, middle, more, later, after);
      asks, shown := asks + more, shown + later;
    }
  }

  lemma PlayedShows(s: State, t: State, e: Env, before: Frames, asks: nat, shown: Frames, after: Frames)
    requires EnvOk(e) && PlayingOk(t.playing) && Played(s, t, e, before, asks, shown, after)
    ensures Shows(t.playing, e, after) && !t.killed
  {
    hide PL.Fetches, AllFrames, Shows;
  }

  lemma NothingPlayed(s: State, e: Env, left: Frames)
    requires EnvOk(e) && PlayingOk(s.playing) && Shows(s.playing, e, left) && !s.killed
    ensures Played(s, s, e, left, 0, [], left)
  {
    hide PL.Fetch;
    NoFrames(e);
    assert left + [] == [] + left && s.fetched + [] == s.fetched;
  }

  // Calls on a head

  /** A call on the play list drops the playback and the unsent points if it is one of those that have them dumped, and
      changes nothing but the list if not. */
  lemma ListCall(s: State, op: PL.Op, rnd: PL.Shuffler)
    requires HeadInv(s) && PL.Shuffles(rnd)
    ensures var t := Apply(s, OpList(op, rnd));
            var u := s.(list := PL.Apply(s.list, op, rnd));
            t == if ListSteps.Dumps(s.list, op)
                 then u.(playing := None, buf := [], idx := 0, fate := s.fate + Head.Repeat(false, |s.buf| - s.idx))
                 else u
  {
    hide Conserved, PL.Apply, PL.Inv;
    PL.ApplyLogs(s.list, op, rnd);
    ListSteps.DumpsExactly(s.list, op, rnd);
  }

  /** After a step in manual or beat mode the head plays nothing and has nothing to send, and the next fetch, however
      often it is asked, is the slot that the step moved to. */
  lemma StepMovesOn(s: State, rnd: PL.Shuffler, later: PL.Shuffler)
    requires HeadInv(s) && PL.Shuffles(rnd) && PL.Shuffles(later) && s.list.selections != []
    requires s.list.stepMode == PL.MANUAL || s.list.stepMode == PL.BEAT
    ensures var t := Apply(s, OpList(ListSteps.StepOf(s.list.stepMode), rnd));
            t.playing == None && t.buf == [] && t.fate == s.fate + Head.Repeat(false, |Unsent(s)|)
            && t.fetched == s.fetched && t.hw == s.hw && t.killed == s.killed
            && PL.Fetch(t.list, later) == t.list && t.list.current in s.list.selections
            && (s.list.selMode != PL.SHUFFLE ==>
                  t.list.current == (s.list.selections[1..] + [s.list.selections[0]])[0])
  {
    hide Conserved, PL.Apply, PL.Inv;
    ListCall(s, ListSteps.StepOf(s.list.stepMode), rnd);
    if s.list.selMode == PL.SHUFFLE {
      ListSteps.StepShuffles(s.list, rnd);
      PL.SameElements(s.list.selections, PL.Apply(s.list, ListSteps.StepOf(s.list.stepMode), rnd).selections);
    } else {
      ListSteps.StepTurns(s.list, rnd);
    }
  }

  /** Killing drops the playback and the unsent points and sets the switch; restarting clears it, and a tick of the
      hardware takes points from its buffer. Nothing else changes. */
  lemma OtherCalls(s: State, n: nat)
    requires HeadInv(s)
    ensures Apply(s, OpKill)
         == s.(killed := true, playing := None, buf := [], idx := 0,
               fate := s.fate + Head.Repeat(false, |s.buf| - s.idx))
    ensures Apply(s, OpRestart) == s.(killed := false)
    ensures var k := if n < |s.hw.queue| then n else |s.hw.queue|;
            Apply(s, OpTick(n))
            == s.(hw := Hw(s.hw.size, s.hw.queue[k..], s.hw.played + s.hw.queue[..k]))
  {
    hide Conserved, PL.Inv;
  }
}
