/** A projector head: it pulls frames from the playback of the slot its play list names, resamples them to points and
    hands the points to a driver. The state functions say what each slot call does; the object is in LaserHead. */
module Head {
  import opened Wrappers
  import opened Sources
  import opened IndexTable
  import opened Playback
  import opened Driver
  import TraceTheorems
  import PL = PlaybackList

  /** Outside the head: the engine's slots, the time, and the two sources of randomness. The resampler is an unknown
      function of a frame and of how many frames it has been given before. */
  datatype Env = Env(slots: seq<Option<Source>>, now: int, sh: Shuffle, rnd: PL.Shuffler,
                     resample: (nat, Frame) -> seq<Sample>)

  ghost predicate EnvOk(e: Env) {
    Shuffles(e.sh) && PL.Shuffles(e.rnd)
    && forall i | 0 <= i < |e.slots| :: e.slots[i].Some? ==> Playable(e.slots[i].value)
  }

  /** A playback of an empty slot returns null for ever. */
  datatype Playing = Blank | Playing(src: Source, pb: Pb)

  /** The head's fields; then what it has done so far: frames resampled, playbacks made, all points ever fetched, and
      for each of them that has left the buffer, whether the driver accepted it. */
  datatype State = State(killed: bool, playing: Option<Playing>, buf: seq<Sample>, idx: nat, list: PL.State, hw: Hw,
                         runs: nat, made: nat, fetched: seq<Sample>, fate: seq<bool>)

  function Start(size: nat): State {
    State(false, None, [], 0, PL.NEW, Hw(size, [], []), 0, 0, [], [])
  }

  // What the calls do

  function Unsent(s: State): seq<Sample>
    requires s.idx <= |s.buf|
  {
    s.buf[s.idx..]
  }

  function Repeat(b: bool, n: nat): (r: seq<bool>)
    ensures |r| == n && forall i | 0 <= i < n :: r[i] == b
  {
    seq(n, _ => b)
  }

  /** loadFrameSource: a killed head takes no playback; an immediate load drops what has not been sent. */
  function LoadFrameSource(s: State, p: Option<Playing>, immediate: bool): State
    requires s.idx <= |s.buf|
  {
    var t := s.(playing := if s.killed then None else p);
    if immediate then t.(idx := 0, buf := [], fate := t.fate + Repeat(false, |s.buf| - s.idx)) else t
  }

  function Dump(s: State): State
    requires s.idx <= |s.buf|
  {
    LoadFrameSource(s, None, true)
  }

  function Kill(s: State): State
    requires s.idx <= |s.buf|
  {
    Dump(s.(killed := true))
  }

  function Restart(s: State): State {
    s.(killed := false)
  }

  /** The play list changes; if it asked for the current selection to be dumped, the head does. */
  function WithList(s: State, list: PL.State): State
    requires s.idx <= |s.buf| && |s.list.log| <= |list.log|
  {
    if PL.Signal.Dump in list.log[|s.list.log|..] then Dump(s.(list := list)) else s.(list := list)
  }

  predicate PlayingOk(p: Option<Playing>) {
    p.Some? && p.value.Playing? ==> Match(p.value.src, p.value.pb)
  }

  /** nextFrame of the playback, if there is one. */
  function PullFrame(p: Option<Playing>, e: Env): (r: (Option<Frame>, Option<Playing>))
    requires PlayingOk(p) && EnvOk(e)
    ensures PlayingOk(r.1) && r.1.Some? == p.Some? && (r.0.Some? ==> p.Some?)
  {
    if p.None? || p.value.Blank? then (None, p)
    else
      var (f, pb) := Next(p.value.src, p.value.pb, e.now, e.sh);
      (f, Some(Playing(p.value.src, pb)))
  }

  /** getPlayback and reset: a new playback of a slot, at its start. */
  function NewPlayback(e: Env, slot: nat, made: nat): (p: Playing)
    requires EnvOk(e)
    ensures PlayingOk(Some(p))
  {
    if slot < |e.slots| && e.slots[slot].Some?
    then Playing(e.slots[slot].value, TraceTheorems.Loaded(e.slots[slot].value, [made], e.now, e.now, e.sh))
    else Blank
  }

  /** The playback gave no frame: ask the list for the next slot and start playing that. */
  function NextSource(s: State, e: Env): (t: State)
    requires EnvOk(e) && s.idx <= |s.buf| && s.buf == []
    ensures PlayingOk(t.playing) || t.playing == s.playing
  {
    var list := PL.Fetch(s.list, e.rnd);
    PL.FetchLogs(s.list, e.rnd);
    var t := WithList(s, list);
    if list.current > -1
    then LoadFrameSource(t, Some(NewPlayback(e, list.current, s.made)), false).(made := s.made + 1)
    else LoadFrameSource(t, None, false)
  }

  /** The part of a refill round that runs when the buffer has been sent: the flag says whether the loop ends. */
  function Refetch(s: State, e: Env): (r: (State, bool))
    requires EnvOk(e) && PlayingOk(s.playing) && s.idx <= |s.buf|
  {
    var (f, playing) := PullFrame(s.playing, e);
    var t := s.(buf := [], idx := 0, playing := playing);
    if f.Some? then (Resampled(t, f.value, e), false)
    else
      var u := NextSource(t, e);
      var (g, again) := PullFrame(u.playing, e);
      var v := u.(playing := again);
      (if g.Some? then Resampled(v, g.value, e) else v, again.None?)
  }

  function Resampled(s: State, f: Frame, e: Env): State {
    var pts := e.resample(s.runs, f);
    s.(buf := pts, runs := s.runs + 1, fetched := s.fetched + pts)
  }

  /** One round of the loop of dataRequested. */
  function Round(s: State, e: Env): (r: (State, bool))
    requires EnvOk(e) && HeadInv(s)
  {
    var (hw, used) := Take(s.hw, s.buf, s.idx);
    var t := s.(hw := hw, idx := s.idx + used, fate := s.fate + Repeat(true, used));
    if t.idx >= |t.buf| then Refetch(t, e) else (t, false)
  }

  // What every step keeps

  /** The fetched points that met one fate. */
  function Fated(pts: seq<Sample>, fate: seq<bool>, b: bool): seq<Sample>
    requires |fate| <= |pts|
    decreases |fate|
  {
    if fate == [] then []
    else
      var n := |fate| - 1;
      Fated(pts, fate[..n], b) + if fate[n] == b then [pts[n]] else []
  }

  /** Conservation: the fetched points are those whose fate is known, in order, and then the unsent ones; and the
      driver has accepted exactly those of them that were not dropped, in order. */
  ghost predicate Conserved(s: State)
    requires s.idx <= |s.buf|
  {
    |s.fate| <= |s.fetched| && s.fetched[|s.fate|..] == Unsent(s)
    && Accepted(s.hw) == Fated(s.fetched, s.fate, true)
  }

  ghost predicate HeadInv(s: State) {
    s.idx <= |s.buf| && |s.hw.queue| <= s.hw.size && PlayingOk(s.playing) && PL.Inv(s.list) && Conserved(s)
    && (s.killed ==> s.playing == None && s.buf == [])
  }

  lemma FatedSnoc(pts: seq<Sample>, fate: seq<bool>, c: bool, b: bool)
    requires |fate| < |pts|
    ensures Fated(pts, fate + [c], b) == Fated(pts, fate, b) + if b == c then [pts[|fate|]] else []
  {
    assert (fate + [c])[..|fate|] == fate;
  }

  lemma {:induction false} FatedAppend(pts: seq<Sample>, fate: seq<bool>, n: nat, c: bool, b: bool)
    requires |fate| + n <= |pts|
    ensures Fated(pts, fate + Repeat(c, n), b) == Fated(pts, fate, b) + if b == c then pts[|fate|..|fate| + n] else []
  {
    hide Fated;
    if n == 0 {
      assert fate + Repeat(c, 0) == fate;
    } else {
      FatedAppend(pts, fate, n - 1, c, b);
      FatedSnoc(pts, fate + Repeat(c, n - 1), c, b);
      assert fate + Repeat(c, n - 1) + [c] == fate + Repeat(c, n);
      if b == c {
        assert pts[|fate|..|fate| + n] == pts[|fate|..|fate| + n - 1] + [pts[|fate| + n - 1]];
      }
    }
  }

  lemma {:induction false} FatedExtends(pts: seq<Sample>, more: seq<Sample>, fate: seq<bool>, b: bool)
    requires |fate| <= |pts|
    ensures Fated(pts + more, fate, b) == Fated(pts, fate, b)
  {
    if fate != [] { FatedExtends(pts, more, fate[..|fate| - 1], b); }
  }

  /** Handing points to the driver: they are accepted, in order. */
  lemma SendKeeps(s: State)
    requires HeadInv(s)
    ensures var (hw, used) := Take(s.hw, s.buf, s.idx);
            HeadInv(s.(hw := hw, idx := s.idx + used, fate := s.fate + Repeat(true, used)))
  {
    var (hw, used) := Take(s.hw, s.buf, s.idx);
    assert s.fetched[|s.fate|..][..used] == s.buf[s.idx..s.idx + used];
    assert s.fetched[|s.fate|..|s.fate| + used] == s.buf[s.idx..s.idx + used];
    FatedAppend(s.fetched, s.fate, used, true, true);
    assert s.fetched[|s.fate| + used..] == s.fetched[|s.fate|..][used..];
  }

  /** Dropping the unsent points. */
  lemma LoadKeeps(s: State, p: Option<Playing>, immediate: bool)
    requires HeadInv(s.(killed := false)) && PlayingOk(p) && (s.killed && !immediate ==> s.buf == [])
    ensures HeadInv(LoadFrameSource(s, p, immediate))
  {
    if immediate { FatedAppend(s.fetched, s.fate, |s.buf| - s.idx, false, true); }
  }

  lemma ListOnly(s: State, list: PL.State)
    requires HeadInv(s) && PL.Inv(list)
    ensures HeadInv(s.(list := list)) && HeadInv(s.(list := list).(killed := false))
  {
    hide Fated, PL.Inv;
  }

  lemma WithListKeeps(s: State, list: PL.State)
    requires HeadInv(s) && PL.Inv(list) && |s.list.log| <= |list.log|
    ensures HeadInv(WithList(s, list))
  {
    hide Fated, PL.Inv, LoadFrameSource;
    ListOnly(s, list);
    hide HeadInv;
    LoadKeeps(s.(list := list), None, true);
  }

  lemma ResampledKeeps(s: State, f: Frame, e: Env)
    requires HeadInv(s) && s.buf == [] && !s.killed
    ensures HeadInv(Resampled(s, f, e))
  {
    var pts := e.resample(s.runs, f);
    assert s.fetched[|s.fate|..] == [];
    FatedExtends(s.fetched, pts, s.fate, true);
    assert (s.fetched + pts)[|s.fate|..] == pts;
  }

  lemma NextSourceKeeps(s: State, e: Env)
    requires HeadInv(s) && EnvOk(e) && s.buf == []
    ensures HeadInv(NextSource(s, e)) && NextSource(s, e).buf == [] && NextSource(s, e).killed == s.killed
    ensures NextSource(s, e).hw == s.hw && NextSource(s, e).fetched == s.fetched && NextSource(s, e).fate == s.fate
    ensures NextSource(s, e).runs == s.runs
  {
    hide PL.Fetch, Fated, NewPlayback, PL.Inv;
    var list := PL.Fetch(s.list, e.rnd);
    PL.FetchLogs(s.list, e.rnd);
    PL.ApplyKeeps(s.list, PL.OpFetch, e.rnd);
    WithListKeeps(s, list);
    var t := WithList(s, list);
    assert s.fate + Repeat(false, 0) == s.fate;
    if list.current > -1 {
      LoadKeeps(t, Some(NewPlayback(e, list.current, s.made)), false);
    } else {
      LoadKeeps(t, None, false);
    }
  }

  lemma ClearedKeeps(s: State, e: Env)
    requires HeadInv(s) && EnvOk(e) && s.idx == |s.buf|
    ensures HeadInv(s.(buf := [], idx := 0, playing := PullFrame(s.playing, e).1))
  {
    hide Fated, PL.Inv;
    var playing := PullFrame(s.playing, e).1;
  }

  lemma RefetchKeeps(s: State, e: Env)
    requires HeadInv(s) && EnvOk(e) && s.idx == |s.buf|
    ensures HeadInv(Refetch(s, e).0) && Refetch(s, e).0.killed == s.killed
    ensures Refetch(s, e).0.hw == s.hw && Refetch(s, e).0.fate == s.fate
  {
    hide Fated, NextSource, PL.Inv, Resampled;
    var (f, playing) := PullFrame(s.playing, e);
    var t := s.(buf := [], idx := 0, playing := playing);
    assert HeadInv(t);
    if f.Some? {
      ResampledKeeps(t, f.value, e);
      ResampledSame(t, f.value, e);
    } else {
      NextSourceKeeps(t, e);
      var u := NextSource(t, e);
      var (g, again) := PullFrame(u.playing, e);
      if g.Some? {
        ResampledKeeps(u.(playing := again), g.value, e);
        ResampledSame(u.(playing := again), g.value, e);
      }
    }
  }

  lemma ResampledSame(s: State, f: Frame, e: Env)
    ensures var t := Resampled(s, f, e);
            t.hw == s.hw && t.fate == s.fate && t.killed == s.killed && t.playing == s.playing
  {
  }

  /** A refill round keeps the buffer index in range, overflows nothing and loses no point: all it adds to the points'
      fates is that the driver accepted them. */
  lemma RoundKeeps(s: State, e: Env)
    requires HeadInv(s) && EnvOk(e)
    ensures HeadInv(Round(s, e).0) && Round(s, e).0.killed == s.killed
    ensures exists n: nat :: Round(s, e).0.fate == s.fate + Repeat(true, n)
  {
    hide Fated, Refetch, PL.Inv;
    SendKeeps(s);
    var (hw, used) := Take(s.hw, s.buf, s.idx);
    var t := s.(hw := hw, idx := s.idx + used, fate := s.fate + Repeat(true, used));
    if t.idx >= |t.buf| { RefetchKeeps(t, e); }
    assert Round(s, e).0.fate == s.fate + Repeat(true, used);
  }

  // Runs

  datatype Op =
    | OpRound(e: Env)
    | OpTick(n: nat)
    | OpKill
    | OpRestart
    | OpList(op: PL.Op, rnd: PL.Shuffler)

  ghost predicate OpOk(op: Op) {
    (op.OpRound? ==> EnvOk(op.e)) && (op.OpList? ==> PL.Shuffles(op.rnd))
  }

  /** The loop guard of dataRequested: more than this many points of space. */
  const LOW_WATER := 300

  /** One step of a head: a round of a refill, if the driver has space; the hardware taking points; kill and restart;
      and any call on the play list, with the dump it may ask for. */
  function Apply(s: State, op: Op): State
    requires HeadInv(s) && OpOk(op)
  {
    match op
    case OpRound(e) => if Free(s.hw) > LOW_WATER then Round(s, e).0 else s
    case OpTick(n) => s.(hw := Drain(s.hw, n))
    case OpKill => Kill(s)
    case OpRestart => Restart(s)
    case OpList(op, rnd) => PL.ApplyLogs(s.list, op, rnd); WithList(s, PL.Apply(s.list, op, rnd))
  }

  lemma ApplyKeeps(s: State, op: Op)
    requires HeadInv(s) && OpOk(op)
    ensures HeadInv(Apply(s, op))
  {
    hide Round, Fated, PL.Apply, PL.Inv;
    match op
    case OpRound(e) => if Free(s.hw) > LOW_WATER { RoundKeeps(s, e); }
    case OpTick(n) =>
    case OpKill => LoadKeeps(s.(killed := true), None, true);
    case OpRestart =>
    case OpList(op, rnd) =>
      PL.ApplyLogs(s.list, op, rnd);
      PL.ApplyKeeps(s.list, op, rnd);
      WithListKeeps(s, PL.Apply(s.list, op, rnd));
  }

  ghost predicate OpsOk(ops: seq<Op>) {
    forall i | 0 <= i < |ops| :: OpOk(ops[i])
  }

  ghost function Run(s: State, ops: seq<Op>): (t: State)
    requires HeadInv(s) && OpsOk(ops)
    ensures HeadInv(t)
    decreases |ops|
  {
    if ops == [] then s
    else
      ApplyKeeps(s, ops[0]);
      Run(Apply(s, ops[0]), ops[1..])
  }

  lemma StartInv(size: nat)
    ensures HeadInv(Start(size))
  {
  }

  /** Over any run from the start, in any order of refills, dumps, kills and hardware ticks: the index never passes the
      buffer's end, the hardware buffer never overflows, and the points accepted are exactly the fetched points that
      were not dropped, in order, with the unsent ones still to come. */
  lemma PointsConserved(size: nat, ops: seq<Op>)
    requires OpsOk(ops)
    ensures HeadInv(Start(size))
    ensures var t := Run(Start(size), ops);
            t.idx <= |t.buf| && |t.hw.queue| <= t.hw.size && |t.fate| <= |t.fetched|
            && Accepted(t.hw) == Fated(t.fetched, t.fate, true) && t.fetched[|t.fate|..] == Unsent(t)
  {
    StartInv(size);
  }

  /** Only a dump or a kill drops points, and then exactly the unsent ones. */
  lemma OnlyDumpsDrop(s: State, op: Op)
    requires HeadInv(s) && OpOk(op)
    ensures op.OpRound? ==> exists n: nat :: Apply(s, op).fate == s.fate + Repeat(true, n)
    ensures op.OpTick? || op.OpRestart? ==> Apply(s, op).fate == s.fate
    ensures op.OpKill? ==> Apply(s, op).fate == s.fate + Repeat(false, |Unsent(s)|)
    ensures op.OpList? ==>
              Apply(s, op).fate == s.fate || Apply(s, op).fate == s.fate + Repeat(false, |Unsent(s)|)
    ensures !op.OpRound? ==> Apply(s, op).fetched == s.fetched && Accepted(Apply(s, op).hw) == Accepted(s.hw)
  {
    hide Round, Conserved, PL.Apply, PL.Inv;
    match op
    case OpRound(e) => RoundFate(s, e);
    case OpTick(n) =>
    case OpKill =>
    case OpRestart =>
    case OpList(lop, rnd) => PL.ApplyLogs(s.list, lop, rnd);
  }

  lemma RoundFate(s: State, e: Env)
    requires HeadInv(s) && EnvOk(e)
    ensures exists n: nat :: Apply(s, OpRound(e)).fate == s.fate + Repeat(true, n)
  {
    hide Round, Conserved, PL.Inv;
    if Free(s.hw) > LOW_WATER { RoundKeeps(s, e); } else { assert s.fate + Repeat(true, 0) == s.fate; }
  }

  // Killed

  /** Until it is restarted a killed head stays killed, and no step hands the driver a point or fetches one. */
  lemma KilledStep(s: State, op: Op)
    requires HeadInv(s) && OpOk(op) && s.killed && op != OpRestart
    ensures var t := Apply(s, op);
            t.killed && t.playing == None && t.buf == [] && t.fetched == s.fetched && Accepted(t.hw) == Accepted(s.hw)
  {
    hide Fated, PL.Apply, PL.Inv, Round;
    ApplyKeeps(s, op);
    match op
    case OpRound(e) => if Free(s.hw) > LOW_WATER { RoundKeeps(s, e); KilledRound(s, e); }
    case OpTick(n) =>
    case OpKill =>
    case OpRestart =>
    case OpList(lop, rnd) => PL.ApplyLogs(s.list, lop, rnd);
  }

  lemma KilledRound(s: State, e: Env)
    requires HeadInv(s) && EnvOk(e) && s.killed
    ensures var t := Round(s, e).0; t.fetched == s.fetched && Accepted(t.hw) == Accepted(s.hw)
  {
    hide Fated, PL.Fetch, PL.Inv;
    SendKeeps(s);
    var (hw, used) := Take(s.hw, s.buf, s.idx);
    assert s.buf[0..0] == [];
    var t := s.(hw := hw, idx := 0, fate := s.fate + Repeat(true, 0));
    NextSourceKeeps(t, e);
  }

  /** Safety of kill: from a kill until the next restart, over any interleaving of steps, the head has no playback and
      an empty buffer, and the driver is handed nothing. */
  lemma {:induction false} KilledIsSafe(s: State, ops: seq<Op>)
    requires HeadInv(s) && OpsOk(ops) && s.killed && forall i | 0 <= i < |ops| :: ops[i] != OpRestart
    ensures var t := Run(s, ops);
            t.killed && t.playing == None && t.buf == [] && t.fetched == s.fetched && Accepted(t.hw) == Accepted(s.hw)
    decreases |ops|
  {
    if ops != [] {
      ApplyKeeps(s, ops[0]);
      KilledStep(s, ops[0]);
      KilledIsSafe(Apply(s, ops[0]), ops[1..]);
    }
  }
}
