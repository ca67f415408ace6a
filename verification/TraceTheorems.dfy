/** What the head gets from a playback it has just created and reset, call after call. */
module TraceTheorems {
  import opened Wrappers
  import opened Sources
  import opened IndexTable
  import opened Playback
  import opened Traces

  // Sequences of calls

  /** The results of n calls of nextFrame, the t-th at clock(t). */
  function Calls(src: Source, pb: Pb, clock: nat -> int, t: nat, n: nat, sh: Shuffle): (r: (seq<Option<Frame>>, Pb))
    requires Match(src, pb) && Shuffles(sh)
    ensures |r.0| == n && Match(src, r.1)
    decreases n
  {
    if n == 0 then ([], pb)
    else
      var (f, next) := Next(src, pb, clock(t), sh);
      var rest := Calls(src, next, clock, t + 1, n - 1, sh);
      ([f] + rest.0, rest.1)
  }

  function Returned(fs: Frames): seq<Option<Frame>> {
    seq(|fs|, i requires 0 <= i < |fs| => Some(fs[i])) + [None]
  }

  lemma {:induction false} GivesCalls(src: Source, pb: Pb, fs: Frames, clock: nat -> int, t: nat, sh: Shuffle)
    requires Match(src, pb) && Shuffles(sh) && Gives(src, pb, fs, sh)
    ensures Calls(src, pb, clock, t, |fs| + 1, sh).0 == Returned(fs)
    ensures Tame(src) ==> AtStart(src, Calls(src, pb, clock, t, |fs| + 1, sh).1)
    ensures TurnsBack(src) ==> Again(src, Calls(src, pb, clock, t, |fs| + 1, sh).1, sh)
    decreases |fs|
  {
    hide Next;
    assert GivesNow(src, pb, fs, sh, clock(t));
    var next := Next(src, pb, clock(t), sh).1;
    if fs == [] {
      assert Calls(src, next, clock, t + 1, 0, sh).0 == [];
    } else {
      GivesCalls(src, next, fs[1..], clock, t + 1, sh);
      assert Returned(fs) == [Some(fs[0])] + Returned(fs[1..]);
    }
  }

  lemma {:induction false} CallsAdd(src: Source, pb: Pb, clock: nat -> int, t: nat, m: nat, n: nat, sh: Shuffle)
    requires Match(src, pb) && Shuffles(sh)
    ensures var first := Calls(src, pb, clock, t, m, sh);
            Calls(src, pb, clock, t, m + n, sh).0 == first.0 + Calls(src, first.1, clock, t + m, n, sh).0
    decreases m
  {
    hide Next;
    if m > 0 {
      CallsAdd(src, Next(src, pb, clock(t), sh).1, clock, t + 1, m - 1, n, sh);
    }
  }

  function Rounds(fs: Frames, k: nat): seq<Option<Frame>> {
    if k == 0 then [] else Returned(fs) + Rounds(fs, k - 1)
  }

  lemma OneRoundMore(k: nat, m: nat)
    requires k > 0
    ensures m + (k - 1) * m == k * m
  {
  }

  /** A tame tree shows its list, a null, its list again, and so on for as long as it is asked. */
  lemma {:induction false} TameRounds(src: Source, pb: Pb, clock: nat -> int, t: nat, k: nat, sh: Shuffle)
    requires Match(src, pb) && Shuffles(sh) && Tame(src) && AtStart(src, pb)
    ensures Calls(src, pb, clock, t, k * (|FramesOf(src)| + 1), sh).0 == Rounds(FramesOf(src), k)
    decreases k
  {
    hide Next, FramesOf, AtStart, Gives;
    if k > 0 {
      var m := |FramesOf(src)| + 1;
      TameGives(src, pb, sh);
      GivesCalls(src, pb, FramesOf(src), clock, t, sh);
      TameRounds(src, Calls(src, pb, clock, t, m, sh).1, clock, t + m, k - 1, sh);
      CallsAdd(src, pb, clock, t, m, (k - 1) * m, sh);
      OneRoundMore(k, m);
    }
  }

  // Newly created playbacks

  /** Trees whose new playback is at its start, and trees whose new playback is primed: no sequencer with a single
      child is the first child, of a first child, and so on, of a sequencer. A new playback of such a one would show
      one frame too many. */
  predicate NewAtStart(src: Source)
    decreases src, 1
  {
    match src
    case Static(_, _, _, _, _) => true
    case Sequencer(_, _, _, _, kids) => |kids| >= 2 && NewKidsPrimed(src)
    case Rotator(_, _, kids) => forall k | k in kids :: NewAtStart(k)
  }

  predicate NewKidsPrimed(src: Source)
    requires src.Sequencer? && |src.kids| >= 2
    decreases src, 0
  {
    NewAtStart(src.kids[0]) && forall i | 1 <= i < |src.kids| :: NewPrimed(src.kids[i])
  }

  predicate NewPrimed(src: Source)
    decreases src, 1
  {
    match src
    case Static(_, _, _, _, _) => true
    case Sequencer(_, _, _, _, kids) => |kids| >= 2 ==> NewKidsPrimed(src)
    case Rotator(_, _, kids) => forall k | k in kids :: NewPrimed(k)
  }

  lemma {:induction false} CreatedAtStart(src: Source, who: seq<nat>, start: int)
    requires Playable(src) && NewAtStart(src)
    ensures AtStart(src, CreatePlayback(src, who, start))
    decreases src, 1
  {
    hide KidsPrimed, NewKidsPrimed;
    match src
    case Static(_, _, _, _, _) =>
    case Sequencer(_, _, _, _, kids) => CreatedKidsPrimed(src, who, start);
    case Rotator(_, _, kids) =>
      if |kids| == 1 { CreatedAtStart(kids[0], who + [0], start); }
  }

  lemma {:induction false} CreatedKidsPrimed(src: Source, who: seq<nat>, start: int)
    requires Playable(src) && src.Sequencer? && |src.kids| >= 2 && NewKidsPrimed(src)
    ensures KidsPrimed(src, CreatePlayback(src, who, start))
    decreases src, 0
  {
    CreatedAtStart(src.kids[0], who + [0], start);
    forall i | 1 <= i < |src.kids|
      ensures Primed(src.kids[i], CreatePlayback(src, who, start).kids[i])
    {
      CreatedPrimed(src.kids[i], who + [i], start);
    }
  }

  lemma {:induction false} CreatedPrimed(src: Source, who: seq<nat>, start: int)
    requires Playable(src) && NewPrimed(src)
    ensures Primed(src, CreatePlayback(src, who, start))
    decreases src, 1
  {
    hide KidsPrimed, NewKidsPrimed;
    match src
    case Static(_, _, _, _, _) =>
    case Sequencer(_, _, _, _, kids) => if |kids| >= 2 { CreatedKidsPrimed(src, who, start); }
    case Rotator(_, _, kids) =>
      if |kids| == 1 { CreatedPrimed(kids[0], who + [0], start); }
  }

  /** A playback as the head loads it: created, then reset. */
  function Loaded(src: Source, who: seq<nat>, start: int, now: int, sh: Shuffle): (pb: Pb)
    requires Playable(src) && Shuffles(sh)
    ensures Match(src, pb)
  {
    Reset(src, CreatePlayback(src, who, start), now, sh)
  }

  /** For a tame tree of any depth, the frames up to the first null are exactly its list, and it repeats for ever. */
  lemma TameLoaded(src: Source, who: seq<nat>, start: int, now: int, sh: Shuffle, clock: nat -> int, k: nat)
    requires Playable(src) && Shuffles(sh) && Tame(src) && NewPrimed(src)
    ensures Calls(src, Loaded(src, who, start, now, sh), clock, 0, k * (|FramesOf(src)| + 1), sh).0
            == Rounds(FramesOf(src), k)
  {
    CreatedPrimed(src, who, start);
    ResetStarts(src, CreatePlayback(src, who, start), now, sh);
    TameRounds(src, Loaded(src, who, start, now, sh), clock, 0, k, sh);
  }

  // Dwell timers

  /** A static frame with a dwell timer shows as long as at most its dwell time, taken as signed, has gone by since the
      timer was started. */
  lemma {:induction false} DwellShows(src: Source, pb: Pb, clock: nat -> int, t: nat, n: nat, sh: Shuffle)
    requires src.Static? && src.useDwell && Match(src, pb) && Shuffles(sh)
    requires forall i | t <= i < t + n ::
               clock(i) - pb.start <= if src.dwell < 0x8000_0000 then src.dwell else src.dwell - 0x1_0000_0000
    ensures forall i | 0 <= i < n :: Calls(src, pb, clock, t, n, sh).0[i] == Some(src.data)
    ensures Calls(src, pb, clock, t, n, sh).1 == pb
    decreases n
  {
    if n > 0 {
      assert Next(src, pb, clock(t), sh) == (Some(src.data), pb);
      DwellShows(src, pb, clock, t + 1, n - 1, sh);
    }
  }

  /** Then it returns null once, and the timer starts again at that time; a reset starts it at its own. */
  lemma DwellExpires(src: Source, pb: Pb, now: int, sh: Shuffle)
    requires src.Static? && src.useDwell && Match(src, pb) && Shuffles(sh)
    requires now - pb.start > if src.dwell < 0x8000_0000 then src.dwell else src.dwell - 0x1_0000_0000
    ensures Next(src, pb, now, sh).0 == None
    ensures Match(src, Next(src, pb, now, sh).1) && Next(src, pb, now, sh).1.start == now
    ensures Reset(src, pb, now, sh).start == now
  {
  }

  // Loaded sequencers

  /** Orderly sequencers whose new playback has the child of its first entry at its start; when they shuffle that may
      be any child. */
  predicate Ready(src: Source) {
    Orderly(src) && if src.newMode == RANDOM then forall k | k in src.kids :: NewAtStart(k) else NewKidsPrimed(src)
  }

  /** A static frame in repeat mode, possibly under colour rotators. */
  predicate Leafy(src: Source) {
    match src
    case Static(_, _, useDwell, _, _) => !useDwell
    case Sequencer(_, _, _, _, _) => false
    case Rotator(_, _, kids) => forall k | k in kids :: Leafy(k)
  }

  lemma {:induction false} LeafyIsSimple(src: Source)
    requires Leafy(src)
    ensures Resettable(src) && NewAtStart(src) && NewPrimed(src)
  {
    if src.Rotator? {
      forall k | k in src.kids
        ensures Resettable(k) && NewAtStart(k) && NewPrimed(k)
      {
        LeafyIsSimple(k);
      }
    }
  }

  /** Two or more static frames make a ready sequencer in every play mode. */
  lemma FlatIsReady(src: Source)
    requires src.Sequencer? && |src.kids| >= 2 && forall k | k in src.kids :: Leafy(k)
    ensures Ready(src)
  {
    forall k | k in src.kids
      ensures Resettable(k) && NewAtStart(k) && NewPrimed(k)
    {
      LeafyIsSimple(k);
    }
  }

  /** So do tame children that play in order. */
  lemma TameIsReady(src: Source)
    requires src.Sequencer? && |src.kids| >= 2 && Tame(src) && NewPrimed(src)
    ensures Ready(src)
  {
  }

  lemma {:induction false} DrawsDoNotMatter(src: Source, who: seq<nat>, d: nat, d': nat, k: nat, sh: Shuffle)
    requires src.Sequencer? && |src.kids| >= 1 && Shuffles(sh) && src.newMode != RANDOM
    ensures Passes(src, who, d, k, sh) == Passes(src, who, d', k, sh)
  {
    PassesInOrder(src, who, d, k, sh);
    PassesInOrder(src, who, d', k, sh);
  }

  lemma {:induction false} NewAtStartIsPrimed(src: Source)
    requires NewAtStart(src)
    ensures NewPrimed(src)
  {
    if src.Rotator? {
      forall k | k in src.kids
        ensures NewPrimed(k)
      {
        NewAtStartIsPrimed(k);
      }
    }
  }

  /** After the first table is in place, a loaded sequencer is at entry 0 of it, with the child there at its start. */
  lemma SequencerLoaded(src: Source, who: seq<nat>, start: int, now: int, at: int, sh: Shuffle) returns (q: Pb)
    requires Playable(src) && Shuffles(sh) && Ready(src)
    ensures Match(src, q) && TableOf(src, q.tbl) && Holding(src, q, q.tbl, 0) && q.passes == 0 && q.who == who
    ensures q.tbl == TableAt(src, who, 0, sh) && (src.newMode == RANDOM ==> q.draws == 1)
    ensures AtStart(src.kids[q.tbl[0]], q.kids[q.tbl[0]])
    ensures Next(src, Loaded(src, who, start, now, sh), at, sh) == Next(src, q, at, sh)
  {
    hide AtStart, Primed, NewAtStart, NewPrimed, Tame, Resettable;
    var pb := Loaded(src, who, start, now, sh);
    var n := |src.kids|;
    forall j | 0 <= j < n
      ensures Primed(src.kids[j], pb.kids[j])
      ensures src.newMode == RANDOM || j == 0 ==> AtStart(src.kids[j], pb.kids[j])
    {
      if src.newMode == RANDOM || j == 0 {
        assert NewAtStart(src.kids[j]);
        NewAtStartIsPrimed(src.kids[j]);
        CreatedAtStart(src.kids[j], who + [j], start);
      }
      CreatedPrimed(src.kids[j], who + [j], start);
    }
    var switched := SeqPb(src.newMode, pb.pos, pb.passes, pb.tbl, pb.who, pb.draws, pb.kids);
    ResetIndexFits(WithPos(CreatePlayback(src, who, start), 0, 0), n, sh);
    ResetIndexFits(switched, n, sh);
    q := if pb.mode != src.newMode then ResetIndex(switched, n, sh) else pb;
  }

  /** For a loaded sequencer of at least two children, in any play mode over resettable ones, going back and forth over
      tame ones from a resettable first one, or in order over tame ones up to a resettable last one: the frames up to
      the first null are exactly repeats plus one passes, each over its own table. */
  lemma SequencerGives(src: Source, who: seq<nat>, start: int, now: int, sh: Shuffle)
    requires Playable(src) && Shuffles(sh) && Ready(src)
    ensures Gives(src, Loaded(src, who, start, now, sh), Passes(src, who, 0, src.repeats + 1, sh), sh)
  {
    var pb, fs := Loaded(src, who, start, now, sh), Passes(src, who, 0, src.repeats + 1, sh);
    forall at: int
      ensures GivesNow(src, pb, fs, sh, at)
    {
      SequencerGivesNow(src, who, start, now, sh, at);
    }
    assert Gives(src, pb, fs, sh);
  }

  lemma SequencerGivesNow(src: Source, who: seq<nat>, start: int, now: int, sh: Shuffle, at: int)
    requires Playable(src) && Shuffles(sh) && Ready(src)
    ensures GivesNow(src, Loaded(src, who, start, now, sh), Passes(src, who, 0, src.repeats + 1, sh), sh, at)
  {
    hide Next, Loaded, FramesOf, Pass, Tame, Resettable, AtStart, Primed, NewKidsPrimed, NewAtStart;
    var q := SequencerLoaded(src, who, start, now, at, sh);
    var kid := src.kids[q.tbl[0]];
    OrderlyKids(src, q.tbl);
    TameGives(kid, q.kids[q.tbl[0]], sh);
    SeqGivesNow(src, q, q.tbl, 0, FramesOf(kid), sh, at);
    if src.newMode != RANDOM { DrawsDoNotMatter(src, who, q.draws, 0, src.repeats, sh); }
    if src.newMode != RANDOM { DrawsDoNotMatter(src, who, q.draws, 1, src.repeats, sh); }
    PassFirst(src, q.tbl);
    Regroup(FramesOf(kid), Pass(src, q.tbl, 1), Passes(src, who, q.draws, src.repeats, sh));
  }

  // Colour rotators

  /** Below its rotators, no sequencer that shuffles. */
  predicate Unshuffled(src: Source) {
    match src
    case Static(_, _, _, _, _) => true
    case Sequencer(_, _, newMode, _, _) => newMode != RANDOM
    case Rotator(_, _, kids) => forall k | k in kids :: Unshuffled(k)
  }

  /** Playbacks that differ at most in the start of an unused dwell timer under the rotators. */
  predicate Alike(src: Source, a: Pb, b: Pb)
    requires Match(src, a) && Match(src, b)
  {
    match src
    case Static(_, _, useDwell, _, _) => a.shown == b.shown && (useDwell ==> a.start == b.start)
    case Sequencer(_, _, _, _, _) => a == b
    case Rotator(_, _, kids) => forall i | 0 <= i < |kids| :: Alike(kids[i], a.kids[i], b.kids[i])
  }

  predicate JustReset(src: Source, pb: Pb)
    requires src.Sequencer? && Match(src, pb)
  {
    pb.mode == src.newMode && pb.pos == 0 && pb.passes == 0 && pb.tbl == Plain(src.newMode, |src.kids|)
  }

  lemma {:induction false} LoopNull(src: Source, pb: Pb, now: int, sh: Shuffle)
    requires src.Sequencer? && Match(src, pb) && Shuffles(sh) && pb.mode == src.newMode != RANDOM
    requires Loop(src, pb, now, sh).0 == None
    ensures JustReset(src, Loop(src, pb, now, sh).1)
    decreases PassesLeft(src, pb), StepsLeft(src, pb), 3
  {
    if !AtEnd(pb) {
      PullNull(src, pb, now, sh);
    } else if pb.passes < src.repeats {
      PullNull(src, NewPass(src, pb, now, sh), now, sh);
    }
  }

  lemma {:induction false} PullNull(src: Source, pb: Pb, now: int, sh: Shuffle)
    requires src.Sequencer? && Match(src, pb) && Shuffles(sh) && pb.mode == src.newMode != RANDOM
    requires (pb.tbl == [] || pb.pos < |pb.tbl|) && Pull(src, pb, now, sh).0 == None
    ensures JustReset(src, Pull(src, pb, now, sh).1)
    decreases PassesLeft(src, pb), if AtEnd(pb) then 1 else StepsLeft(src, pb), 2
  {
    ResetIndexFits(pb, |src.kids|, sh);
    var q := Refilled(pb, |src.kids|, sh);
    var i := q.tbl[q.pos];
    AdvanceNull(src, WithKid(q, i, Next(src.kids[i], q.kids[i], now, sh).1), now, sh);
  }

  lemma {:induction false} AdvanceNull(src: Source, pb: Pb, now: int, sh: Shuffle)
    requires src.Sequencer? && Match(src, pb) && Shuffles(sh) && pb.mode == src.newMode != RANDOM
    requires pb.pos < |pb.tbl| && Advance(src, pb, now, sh).0 == None
    ensures JustReset(src, Advance(src, pb, now, sh).1)
    decreases PassesLeft(src, pb), |pb.tbl| - pb.pos, 1
  {
    if pb.pos < |pb.tbl| - 1 {
      var q := Step(src, pb, now, sh);
      var i := q.tbl[q.pos];
      AdvanceNull(src, WithKid(q, i, Next(src.kids[i], q.kids[i], now, sh).1), now, sh);
    } else {
      LoopNull(src, pb, now, sh);
    }
  }

  /** After a null, one more reset changes nothing that shows. */
  lemma {:induction false} NullIsReset(src: Source, pb: Pb, now: int, sh: Shuffle)
    requires Match(src, pb) && Shuffles(sh) && Unshuffled(src) && Next(src, pb, now, sh).0 == None
    ensures var next := Next(src, pb, now, sh).1; Alike(src, Reset(src, next, now, sh), next)
  {
    match src
    case Static(_, _, _, _, _) =>
    case Sequencer(_, _, newMode, _, kids) =>
      var switched := SeqPb(newMode, pb.pos, pb.passes, pb.tbl, pb.who, pb.draws, pb.kids);
      ResetIndexFits(switched, |kids|, sh);
      LoopNull(src, if pb.mode != newMode then ResetIndex(switched, |kids|, sh) else pb, now, sh);
    case Rotator(_, _, kids) =>
      if |kids| == 1 {
        var kid := Next(kids[0], pb.kids[0], now, sh).1;
        NullIsReset(kids[0], pb.kids[0], now, sh);
        ResetAlike(kids[0], Reset(kids[0], kid, now, sh), kid, now, sh);
      }
  }

  lemma {:induction false} ResetAlike(src: Source, a: Pb, b: Pb, now: int, sh: Shuffle)
    requires Match(src, a) && Match(src, b) && Shuffles(sh) && Alike(src, a, b)
    ensures Alike(src, Reset(src, a, now, sh), Reset(src, b, now, sh))
  {
    if src.Rotator? && |src.kids| == 1 {
      ResetAlike(src.kids[0], a.kids[0], b.kids[0], now, sh);
    }
  }

  lemma {:induction false} AlikeTransitive(src: Source, a: Pb, b: Pb, c: Pb)
    requires Match(src, a) && Match(src, b) && Match(src, c) && Alike(src, a, b) && Alike(src, b, c)
    ensures Alike(src, a, c)
  {
    if src.Rotator? && |src.kids| == 1 {
      AlikeTransitive(src.kids[0], a.kids[0], b.kids[0], c.kids[0]);
    }
  }

  lemma {:induction false} NextAlike(src: Source, a: Pb, b: Pb, now: int, sh: Shuffle)
    requires Match(src, a) && Match(src, b) && Shuffles(sh) && Alike(src, a, b)
    ensures Next(src, a, now, sh).0 == Next(src, b, now, sh).0
    ensures Alike(src, Next(src, a, now, sh).1, Next(src, b, now, sh).1)
  {
    if src.Rotator? && |src.kids| == 1 {
      NextAlike(src.kids[0], a.kids[0], b.kids[0], now, sh);
      var kid := src.kids[0];
      ResetAlike(kid, Next(kid, a.kids[0], now, sh).1, Next(kid, b.kids[0], now, sh).1, now, sh);
    }
  }

  /** What a rotator does: it hands on what its child returns, and resets the child after each null; without a child it
      returns null. A child that shuffles draws once more for that. */
  lemma RotatorHandsOn(src: Source, pb: Pb, now: int, sh: Shuffle)
    requires src.Rotator? && Match(src, pb) && Shuffles(sh)
    ensures |src.kids| == 0 ==> Next(src, pb, now, sh) == (None, pb)
    ensures |src.kids| == 1 ==>
              var (f, kid) := Next(src.kids[0], pb.kids[0], now, sh);
              Next(src, pb, now, sh) == (f, RotPb([if f.Some? then kid else Reset(src.kids[0], kid, now, sh)]))
    ensures |src.kids| == 1 && src.kids[0].Sequencer? ==>
              var kid := Next(src.kids[0], pb.kids[0], now, sh).1;
              var after := Next(src, pb, now, sh).1.kids[0];
              Next(src, pb, now, sh).0 == None && kid.mode == RANDOM ==> after.draws == kid.draws + 1
  {
  }

  /** A colour rotator returns a frame on exactly the calls its bare child would, and null on the others, although it
      resets the child once more after every null. */
  lemma {:induction false} RotatorTransparent(rot: Source, r: Pb, bare: Pb, clock: nat -> int, t: nat, n: nat,
                                              sh: Shuffle)
    requires rot.Rotator? && |rot.kids| == 1 && Unshuffled(rot) && Shuffles(sh)
    requires Match(rot, r) && Match(rot.kids[0], bare) && Alike(rot.kids[0], r.kids[0], bare)
    ensures Calls(rot, r, clock, t, n, sh).0 == Calls(rot.kids[0], bare, clock, t, n, sh).0
    decreases n
  {
    if n > 0 {
      var kid, now := rot.kids[0], clock(t);
      var (f, b) := Next(kid, bare, now, sh);
      var a := Next(kid, r.kids[0], now, sh).1;
      NextAlike(kid, r.kids[0], bare, now, sh);
      if f.None? {
        NullIsReset(kid, r.kids[0], now, sh);
        AlikeTransitive(kid, Reset(kid, a, now, sh), a, b);
      }
      RotatorTransparent(rot, Next(rot, r, now, sh).1, b, clock, t + 1, n - 1, sh);
    }
  }

  // Settings that change between calls

  /** The same tree with other play modes, repeats and dwell settings. */
  predicate SameShape(a: Source, b: Source) {
    match a
    case Static(_, _, _, _, _) => b.Static?
    case Sequencer(_, _, _, _, kids) =>
      b.Sequencer? && |kids| == |b.kids| && forall i | 0 <= i < |kids| :: SameShape(kids[i], b.kids[i])
    case Rotator(_, _, kids) =>
      b.Rotator? && |kids| == |b.kids| && forall i | 0 <= i < |kids| :: SameShape(kids[i], b.kids[i])
  }

  /** A playback stays fit for its tree however the settings are changed between two calls, a switch from ping-pong
      to a shorter table included: the next call still indexes its tables in range. */
  lemma {:induction false} SettingsMayChange(src: Source, other: Source, pb: Pb)
    requires Match(src, pb) && SameShape(src, other)
    ensures Match(other, pb)
  {
    if !src.Static? {
      forall i | 0 <= i < |src.kids|
        ensures Match(other.kids[i], pb.kids[i])
      {
        SettingsMayChange(src.kids[i], other.kids[i], pb.kids[i]);
      }
    }
  }
}
