/** The head object, with its own play list and driver: every slot call does to its fields what the state functions
    of Head say. */
module LaserHead {
  import opened Wrappers
  import opened Playback
  import opened Driver
  import opened Head
  import opened Refill
  import PL = PlaybackList

  class LaserHead {
    const sources: PL.List
    const driver: Driver
    var killed: bool
    var playing: Option<Playing>
    var pointBuf: seq<Sample>
    var frameIndex: nat
    var runs: nat
    var made: nat
    ghost var fetched: seq<Sample>
    ghost var fate: seq<bool>

    ghost function View(): State
      reads this, sources, driver
    {
      State(killed, playing, pointBuf, frameIndex, sources.View(), driver.history, runs, made, fetched, fate)
    }

    ghost predicate Valid()
      reads this, sources, driver
    {
      sources.Valid() && driver.Valid() && HeadInv(View())
    }

    constructor (audio: bool, rnd: PL.Shuffler)
      requires PL.Shuffles(rnd)
      ensures Valid() && View() == Start(driver.history.size) && sources.rnd == rnd && driver.audio == audio
      ensures fresh(sources) && fresh(driver)
    {
      var s := new PL.List(rnd);
      var d := new Driver(audio);
      sources, driver := s, d;
      killed, playing, pointBuf, frameIndex, runs, made := false, None, [], 0, 0, 0;
      fetched, fate := [], [];
      new;
      assert View() == Start(driver.history.size);
      StartInv(driver.history.size);
    }

    /** LaserHead::loadFrameSource. */
    method LoadSource(p: Option<Playing>, immediate: bool)
      requires frameIndex <= |pointBuf|
      modifies this
      ensures View() == LoadFrameSource(old(View()), p, immediate)
    {
      if !killed { playing := p; } else { playing := None; }
      if immediate {
        fate := fate + Head.Repeat(false, |pointBuf| - frameIndex);
        frameIndex := 0;
        pointBuf := [];
      }
    }

    method DumpSource()
      requires frameIndex <= |pointBuf|
      modifies this
      ensures View() == Dump(old(View()))
    {
      LoadSource(None, true);
    }

    method KillOutput()
      requires Valid()
      modifies this
      ensures Valid() && View() == Kill(old(View()))
    {
      ghost var before := View();
      killed := true;
      LoadSource(None, true);
      Head.ApplyKeeps(before, OpKill);
    }

    method RestartOutput()
      requires Valid()
      modifies this
      ensures Valid() && View() == Restart(old(View()))
    {
      ghost var before := View();
      killed := false;
      Head.ApplyKeeps(before, OpRestart);
    }

    /** The list's dump signal reaches the head. */
    method OnListSignals(mark: nat)
      requires frameIndex <= |pointBuf| && mark <= |sources.log|
      modifies this
      ensures View() == if PL.Signal.Dump in sources.log[mark..] then Dump(old(View())) else old(View())
    {
      if PL.Signal.Dump in sources.log[mark..] { DumpSource(); }
    }

    method SelectSlot(pos: PL.Slot, active: bool)
      requires Valid()
      modifies this, sources
      ensures Valid() && View() == Apply(old(View()), OpList(PL.OpSelect(pos, active), sources.rnd))
    {
      ghost var before := View();
      var mark := |sources.log|;
      PL.ApplyLogs(sources.View(), PL.OpSelect(pos, active), sources.rnd);
      sources.SelectSlot(pos, active);
      OnListSignals(mark);
      Head.ApplyKeeps(before, OpList(PL.OpSelect(pos, active), sources.rnd));
    }

    method ManualStep()
      requires Valid()
      modifies this, sources
      ensures Valid() && View() == Apply(old(View()), OpList(PL.OpManual, sources.rnd))
    {
      ghost var before := View();
      var mark := |sources.log|;
      PL.ApplyLogs(sources.View(), PL.OpManual, sources.rnd);
      sources.ManualStepClicked();
      OnListSignals(mark);
      Head.ApplyKeeps(before, OpList(PL.OpManual, sources.rnd));
    }

    method Beat()
      requires Valid()
      modifies this, sources
      ensures Valid() && View() == Apply(old(View()), OpList(PL.OpBeat, sources.rnd))
    {
      ghost var before := View();
      var mark := |sources.log|;
      PL.ApplyLogs(sources.View(), PL.OpBeat, sources.rnd);
      sources.BeatDetected();
      OnListSignals(mark);
      Head.ApplyKeeps(before, OpList(PL.OpBeat, sources.rnd));
    }

    /** A frame, or null, from the playback. */
    method NextFrame(e: Env) returns (f: Option<Frame>)
      requires EnvOk(e) && PlayingOk(playing)
      modifies this`playing
      ensures (f, playing) == PullFrame(old(playing), e)
    {
      f := None;
      if playing.Some? && playing.value.Playing? {
        var r := Next(playing.value.src, playing.value.pb, e.now, e.sh);
        f := r.0;
        playing := Some(Playing(playing.value.src, r.1));
      }
    }

    /** Asking the list for the next slot, making a playback of it, and loading that. */
    method LoadNextSource(e: Env)
      requires Valid() && EnvOk(e) && e.rnd == sources.rnd && pointBuf == []
      modifies this, sources
      ensures sources.Valid() && View() == NextSource(old(View()), e)
    {
      var mark := |sources.log|;
      PL.FetchLogs(sources.View(), e.rnd);
      var s := sources.GetNextFrameSource();
      OnListSignals(mark);
      if s > -1 {
        LoadSource(Some(NewPlayback(e, s, made)), false);
        made := made + 1;
      } else {
        LoadSource(None, false);
      }
    }

    /** Resampling a frame into the empty buffer. */
    method Resample(f: Frame, e: Env)
      modifies this
      ensures View() == Resampled(old(View()), f, e)
    {
      pointBuf := e.resample(runs, f);
      runs := runs + 1;
      fetched := fetched + pointBuf;
    }

    /** The part of the loop body that runs when the buffer has been sent; the flag is the loop's break. */
    method FetchMore(e: Env) returns (stop: bool)
      requires Valid() && EnvOk(e) && e.rnd == sources.rnd && frameIndex == |pointBuf|
      modifies this, sources
      ensures Valid() && (View(), stop) == Refetch(old(View()), e)
    {
      hide NextSource, Resampled, PullFrame, Conserved, PL.Inv;
      ghost var before := View();
      RefetchKeeps(before, e);
      ClearedKeeps(before, e);
      pointBuf := [];
      frameIndex := 0;
      var fp := NextFrame(e);
      if fp.None? {
        LoadNextSource(e);
        NextSourceKeeps(before.(buf := [], idx := 0, playing := PullFrame(before.playing, e).1), e);
        fp := NextFrame(e);
      }
      if fp.Some? {
        ResampledSame(View(), fp.value, e);
        Resample(fp.value, e);
      }
      stop := playing.None?;
    }

    /** Handing the driver what it has space for. */
    method Send()
      requires Valid()
      modifies this, driver
      ensures Valid() && unchanged(sources)
      ensures var s := old(View()); var (hw, used) := Take(s.hw, s.buf, s.idx);
              View() == s.(hw := hw, idx := s.idx + used, fate := s.fate + Head.Repeat(true, used))
    {
      hide Conserved, PL.Inv;
      SendKeeps(View());
      fate := fate + Head.Repeat(true, Take(driver.history, pointBuf, frameIndex).1);
      var t := driver.NewPoints(pointBuf, frameIndex);
      frameIndex := frameIndex + t;
    }

    /** The body of the loop of dataRequested; the flag is the loop's break. */
    method OneRound(e: Env) returns (stop: bool)
      requires Valid() && EnvOk(e) && e.rnd == sources.rnd
      modifies this, sources, driver
      ensures Valid() && (View(), stop) == Round(old(View()), e)
    {
      hide Conserved, PL.Inv, Refetch, Take;
      Send();
      stop := false;
      if frameIndex >= |pointBuf| {
        stop := FetchMore(e);
      }
    }

    /** LaserHead::dataRequested, with the time of each round; called where the loop ends. */
    method DataRequested(e: Env, clock: Clock)
      requires Valid() && EnvOk(e) && e.rnd == sources.rnd && Ends(View(), e, clock, 0)
      modifies this, sources, driver
      ensures Valid() && View() == AfterRefill(old(View()), e, clock)
      ensures Free(driver.history) <= 300 || playing == None
    {
      hide HeadInv, Round;
      ghost var n: nat :| Stops(View(), e, clock, 0, n);
      ghost var result := After(View(), e, clock, 0, n);
      ghost var m: nat :| Stops(View(), e, clock, 0, m)
                          && AfterRefill(View(), e, clock) == After(View(), e, clock, 0, m);
      AfterOne(View(), e, clock, 0, m, n);
      var t := 0;
      var free := driver.BufferFillStatus();
      while free > LOW_WATER
        invariant Valid() && free == Free(driver.history)
        invariant Stops(View(), e, clock, t, n) && result == After(View(), e, clock, t, n)
        decreases n
      {
        var stop := OneRound(At(e, clock, t));
        if stop { return; }
        t, n := t + 1, n - 1;
        free := driver.BufferFillStatus();
      }
    }
  }
}
