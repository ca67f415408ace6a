/** What a playback shows: the lists of frames that repeated calls of nextFrame return, up to the first null. */
module Traces {
  import opened Wrappers
  import opened Sources
  import opened IndexTable
  import opened Playback

  type Frames = seq<Frame>

  // The lists

  function Times(fs: Frames, k: nat): Frames {
    if k == 0 then [] else fs + Times(fs, k - 1)
  }

  function First(fs: Frames): Frames {
    if fs == [] then [] else [fs[0]]
  }

  /** Trees that a reset takes back to the start from any state: no dwell timers, and sequencers with one child only. */
  predicate Resettable(src: Source) {
    match src
    case Static(_, _, useDwell, _, _) => !useDwell
    case Sequencer(_, _, _, _, kids) => |kids| == 1 && Resettable(kids[0])
    case Rotator(_, _, kids) => forall k | k in kids :: Resettable(k)
  }

  /** Trees that show the same list again after each null. A sequencer must play in order, and the child it plays
      last must be resettable: of that child it shows the first frame only, and leaves it there. */
  predicate Tame(src: Source) {
    match src
    case Static(_, _, useDwell, _, _) => !useDwell
    case Sequencer(_, _, newMode, _, kids) =>
      |kids| >= 1 && Resettable(kids[|kids| - 1])
      && (|kids| >= 2 ==> newMode == SEQUENTIAL && forall k | k in kids[..|kids| - 1] :: Tame(k))
    case Rotator(_, _, kids) => forall k | k in kids :: Tame(k)
  }

  /** The whole list a tame tree shows, from its start up to the null. */
  function FramesOf(src: Source): Frames
    decreases src, 1
  {
    match src
    case Static(_, data, _, _, repeats) => Times([data], repeats)
    case Sequencer(_, _, _, repeats, kids) =>
      if |kids| == 0 then []
      else if |kids| == 1 then Times(First(FramesOf(kids[0])), repeats)
      else Times(Pass(src, Iota(|kids|), 0), repeats + 1)
    case Rotator(_, _, kids) => if |kids| == 0 then [] else FramesOf(kids[0])
  }

  /** One pass over a table from entry i on: all frames of each entry but the last, and the first of the last. */
  function Pass(src: Source, tbl: seq<nat>, i: nat): Frames
    requires src.Sequencer? && i < |tbl| && forall j | 0 <= j < |tbl| :: tbl[j] < |src.kids|
    decreases src, 0, |tbl| - i
  {
    if i == |tbl| - 1 then First(FramesOf(src.kids[tbl[i]]))
    else FramesOf(src.kids[tbl[i]]) + Pass(src, tbl, i + 1)
  }

  /** The next k passes, with the table each of them gets. */
  function Passes(src: Source, who: seq<nat>, draws: nat, k: nat, sh: Shuffle): Frames
    requires src.Sequencer? && |src.kids| >= 1 && Shuffles(sh)
    decreases k
  {
    if k == 0 then []
    else Pass(src, TableAt(src, who, draws, sh), 0)
         + Passes(src, who, if src.newMode == RANDOM then draws + 1 else draws, k - 1, sh)
  }

  function TableAt(src: Source, who: seq<nat>, draws: nat, sh: Shuffle): (t: seq<nat>)
    requires src.Sequencer? && |src.kids| >= 1 && Shuffles(sh)
    ensures |t| == TableSize(src.newMode, |src.kids|) && forall j | 0 <= j < |t| :: t[j] < |src.kids|
  {
    if src.newMode == RANDOM then
      PermutationFits(sh(who, draws, |src.kids|), |src.kids|);
      sh(who, draws, |src.kids|)
    else Plain(src.newMode, |src.kids|)
  }

  // Where a playback is

  /** A playback about to show its tree's whole list. */
  predicate AtStart(src: Source, pb: Pb)
    requires Match(src, pb)
    decreases src, 1
  {
    match src
    case Static(_, _, _, _, _) => pb.shown == 0
    case Sequencer(_, _, newMode, _, kids) =>
      pb.passes == 0
      && if |kids| == 1 then pb.tbl != []
         else pb.pos == 0 && (pb.mode != newMode || pb.tbl == [] || pb.tbl == Plain(newMode, |kids|))
              && KidsPrimed(src, pb)
    case Rotator(_, _, kids) => forall i | 0 <= i < |kids| :: AtStart(kids[i], pb.kids[i])
  }

  /** The first child at its start and the others where a reset takes them there. */
  predicate KidsPrimed(src: Source, pb: Pb)
    requires src.Sequencer? && Match(src, pb)
    decreases src, 0
  {
    AtStart(src.kids[0], pb.kids[0]) && forall i | 1 <= i < |src.kids| :: Primed(src.kids[i], pb.kids[i])
  }

  /** A playback that a reset would take to its start. */
  predicate Primed(src: Source, pb: Pb)
    requires Match(src, pb)
    decreases src, 1
  {
    match src
    case Static(_, _, _, _, _) => true
    case Sequencer(_, _, _, _, kids) => |kids| >= 2 ==> KidsPrimed(src, pb)
    case Rotator(_, _, kids) => forall i | 0 <= i < |kids| :: Primed(kids[i], pb.kids[i])
  }

  lemma {:induction false} StartIsPrimed(src: Source, pb: Pb)
    requires Match(src, pb) && AtStart(src, pb)
    ensures Primed(src, pb)
  {
    if src.Rotator? && |src.kids| == 1 {
      StartIsPrimed(src.kids[0], pb.kids[0]);
    }
  }

  lemma {:induction false} ResettableIsPrimed(src: Source, pb: Pb)
    requires Match(src, pb) && Resettable(src)
    ensures Primed(src, pb)
  {
    if src.Rotator? && |src.kids| == 1 {
      ResettableIsPrimed(src.kids[0], pb.kids[0]);
    }
  }

  lemma {:induction false} ResettableIsTame(src: Source)
    requires Resettable(src)
    ensures Tame(src)
  {
    if src.Rotator? {
      forall k | k in src.kids
        ensures Tame(k)
      {
        ResettableIsTame(k);
      }
    }
  }

  lemma {:induction false} ResetStarts(src: Source, pb: Pb, now: int, sh: Shuffle)
    requires Match(src, pb) && Shuffles(sh) && Tame(src) && Primed(src, pb)
    ensures AtStart(src, Reset(src, pb, now, sh))
  {
    if src.Rotator? && |src.kids| == 1 {
      ResetStarts(src.kids[0], pb.kids[0], now, sh);
    } else if src.Sequencer? {
      ResetIndexFits(WithPos(pb, 0, 0), |src.kids|, sh);
    }
  }

  // What it shows

  /** From here on, whatever the clock says, calls of nextFrame return exactly these frames and then null; after that a
      tame tree is at its start again, and a sequencer that goes back and forth is almost. */
  ghost predicate Gives(src: Source, pb: Pb, fs: Frames, sh: Shuffle)
    requires Match(src, pb) && Shuffles(sh)
    decreases src, |fs|, 2
  {
    forall now: int :: GivesNow(src, pb, fs, sh, now)
  }

  ghost predicate GivesNow(src: Source, pb: Pb, fs: Frames, sh: Shuffle, now: int)
    requires Match(src, pb) && Shuffles(sh)
    decreases src, |fs|, 1
  {
    var (f, next) := Next(src, pb, now, sh);
    if fs == [] then f == None && (Tame(src) ==> AtStart(src, next)) && (TurnsBack(src) ==> Again(src, next, sh))
    else f == Some(fs[0]) && Gives(src, next, fs[1..], sh)
  }

  function Tail(fs: Frames): Frames {
    if fs == [] then [] else fs[1..]
  }

  /** About to show its list once more, but with the first frame of its first child behind it. */
  ghost predicate Again(src: Source, pb: Pb, sh: Shuffle)
    requires Match(src, pb) && Shuffles(sh) && TurnsBack(src)
    decreases src, 0, 0
  {
    Holding(src, pb, Plain(PINGPONG, |src.kids|), 0) && pb.passes == 0
    && Gives(src.kids[0], pb.kids[0], Tail(FramesOf(src.kids[0])), sh)
  }

  lemma GivesAt(src: Source, pb: Pb, fs: Frames, sh: Shuffle, now: int)
    requires Match(src, pb) && Shuffles(sh) && Gives(src, pb, fs, sh)
    ensures var (f, next) := Next(src, pb, now, sh);
            if fs == [] then f == None else f == Some(fs[0]) && Gives(src, next, fs[1..], sh)
  {
    hide Next;
    assert GivesNow(src, pb, fs, sh, now);
  }

  /** What a playback gives is determined: there is only one such list. */
  lemma {:induction false} GivesOne(src: Source, pb: Pb, fs: Frames, gs: Frames, sh: Shuffle)
    requires Match(src, pb) && Shuffles(sh) && Gives(src, pb, fs, sh) && Gives(src, pb, gs, sh)
    ensures fs == gs
    decreases |fs|
  {
    hide Next;
    assert GivesNow(src, pb, fs, sh, 0) && GivesNow(src, pb, gs, sh, 0);
    if fs != [] {
      GivesOne(src, Next(src, pb, 0, sh).1, fs[1..], gs[1..], sh);
      assert fs == [fs[0]] + fs[1..] && gs == [gs[0]] + gs[1..];
    }
  }

  // Leaves and rotators

  lemma {:induction false} LeafGives(src: Source, pb: Pb, sh: Shuffle)
    requires src.Static? && !src.useDwell && Match(src, pb) && Shuffles(sh) && pb.shown <= src.repeats
    ensures Gives(src, pb, Times([src.data], src.repeats - pb.shown), sh)
    decreases src.repeats - pb.shown
  {
    var fs := Times([src.data], src.repeats - pb.shown);
    forall now: int
      ensures GivesNow(src, pb, fs, sh, now)
    {
      if pb.shown < src.repeats {
        var next := Next(src, pb, now, sh).1;
        LeafGives(src, next, sh);
        assert fs == [src.data] + Times([src.data], src.repeats - next.shown);
        assert fs[1..] == Times([src.data], src.repeats - next.shown);
      }
    }
    assert Gives(src, pb, fs, sh);
  }

  lemma {:induction false} RotatorGives(src: Source, pb: Pb, fs: Frames, sh: Shuffle)
    requires src.Rotator? && |src.kids| == 1 && Match(src, pb) && Shuffles(sh)
    requires Tame(src.kids[0]) && Gives(src.kids[0], pb.kids[0], fs, sh)
    ensures Gives(src, pb, fs, sh)
    decreases |fs|
  {
    forall now: int
      ensures GivesNow(src, pb, fs, sh, now)
    {
      var kid := src.kids[0];
      assert GivesNow(kid, pb.kids[0], fs, sh, now);
      var next := Next(kid, pb.kids[0], now, sh).1;
      if fs == [] {
        StartIsPrimed(kid, next);
        ResetStarts(kid, next, now, sh);
      } else {
        RotatorGives(src, RotPb([next]), fs[1..], sh);
      }
    }
  }

  // One call of a sequencer's nextFrame

  /** A sequencer in the middle of a pass over table tbl, at entry i. */
  predicate At(src: Source, pb: Pb, tbl: seq<nat>, i: nat)
    requires Match(src, pb)
  {
    src.Sequencer? && pb.mode == src.newMode && pb.tbl == tbl && pb.pos == i < |tbl|
  }

  lemma NextGivesFrame(src: Source, pb: Pb, tbl: seq<nat>, i: nat, now: int, sh: Shuffle)
    requires Match(src, pb) && Shuffles(sh) && At(src, pb, tbl, i) && i < |tbl| - 1
    requires Next(src.kids[tbl[i]], pb.kids[tbl[i]], now, sh).0.Some?
    ensures var (f, kid) := Next(src.kids[tbl[i]], pb.kids[tbl[i]], now, sh);
            Next(src, pb, now, sh) == (f, WithKid(pb, tbl[i], kid))
  {
    assert Refilled(pb, |src.kids|, sh) == pb;
    assert Next(src, pb, now, sh) == Loop(src, pb, now, sh) == Pull(src, pb, now, sh);
  }

  /** When the child at entry i returns null, the call goes on as if the sequencer had been at entry i+1 already,
      with the child there reset. */
  lemma NextMovesOn(src: Source, pb: Pb, tbl: seq<nat>, i: nat, now: int, sh: Shuffle) returns (q: Pb)
    requires Match(src, pb) && Shuffles(sh) && At(src, pb, tbl, i) && i < |tbl| - 1
    requires Next(src.kids[tbl[i]], pb.kids[tbl[i]], now, sh).0.None?
    ensures var kid := Next(src.kids[tbl[i]], pb.kids[tbl[i]], now, sh).1;
            Match(src, WithKid(pb, tbl[i], kid)) && q == Step(src, WithKid(pb, tbl[i], kid), now, sh)
    ensures Match(src, q) && At(src, q, tbl, i + 1) && q.passes == pb.passes
    ensures Next(src, pb, now, sh) == Pull(src, q, now, sh)
    ensures i + 1 < |tbl| - 1 ==> Next(src, pb, now, sh) == Next(src, q, now, sh)
  {
    var kid := Next(src.kids[tbl[i]], pb.kids[tbl[i]], now, sh).1;
    var p := WithKid(pb, tbl[i], kid);
    q := Step(src, p, now, sh);
    assert Pull(src, pb, now, sh) == Advance(src, p, now, sh);
    assert Advance(src, p, now, sh) == Pull(src, q, now, sh);
  }

  lemma NextAtLastGivesFrame(src: Source, q: Pb, tbl: seq<nat>, now: int, sh: Shuffle)
    requires Match(src, q) && Shuffles(sh) && |tbl| >= 1 && At(src, q, tbl, |tbl| - 1)
    ensures var (f, kid) := Next(src.kids[tbl[|tbl| - 1]], q.kids[tbl[|tbl| - 1]], now, sh);
            Match(src, WithKid(q, tbl[|tbl| - 1], kid))
            && Pull(src, q, now, sh) == if f.Some? then (f, WithKid(q, tbl[|tbl| - 1], kid))
                                        else Next(src, WithKid(q, tbl[|tbl| - 1], kid), now, sh)
  {
    var i := tbl[|tbl| - 1];
    var (f, kid) := Next(src.kids[i], q.kids[i], now, sh);
    var p := WithKid(q, i, kid);
    assert Refilled(q, |src.kids|, sh) == q;
    if f.None? {
      assert Pull(src, q, now, sh) == Advance(src, p, now, sh) == Loop(src, p, now, sh) == Next(src, p, now, sh);
    }
  }

  lemma NextEnds(src: Source, pb: Pb, tbl: seq<nat>, now: int, sh: Shuffle)
    requires Match(src, pb) && Shuffles(sh) && |tbl| >= 1 && At(src, pb, tbl, |tbl| - 1)
    requires pb.passes >= src.repeats
    ensures Next(src, pb, now, sh) == (None, Reset(src, pb, now, sh))
  {
  }

  lemma NextStartsOver(src: Source, pb: Pb, tbl: seq<nat>, now: int, sh: Shuffle) returns (q: Pb)
    requires Match(src, pb) && Shuffles(sh) && |tbl| >= 2 && At(src, pb, tbl, |tbl| - 1)
    requires pb.passes < src.repeats
    ensures q == NewPass(src, pb, now, sh) && Match(src, q) && q.tbl == TableAt(src, pb.who, pb.draws, sh)
    ensures |q.tbl| == |tbl| && At(src, q, q.tbl, 0) && q.passes == pb.passes + 1
    ensures q.who == pb.who && q.draws == if src.newMode == RANDOM then pb.draws + 1 else pb.draws
    ensures Next(src, pb, now, sh) == Next(src, q, now, sh)
  {
    q := NewPass(src, pb, now, sh);
    assert Next(src, pb, now, sh) == Loop(src, pb, now, sh) == Pull(src, q, now, sh);
    assert Next(src, q, now, sh) == Loop(src, q, now, sh) == Pull(src, q, now, sh);
  }

  // A sequencer's passes

  /** Sequencers with a theorem about their list: tame ones, ones in any mode whose children are all resettable, and
      ones that go back and forth over tame children and end each pass with a resettable one. */
  predicate Orderly(src: Source) {
    src.Sequencer? && |src.kids| >= 2 && (Tame(src) || TurnsBack(src) || forall k | k in src.kids :: Resettable(k))
  }

  predicate TurnsBack(src: Source) {
    src.Sequencer? && |src.kids| >= 2 && src.newMode == PINGPONG && Resettable(src.kids[0])
    && forall k | k in src.kids[1..] :: Tame(k)
  }

  predicate TableOf(src: Source, tbl: seq<nat>) {
    src.Sequencer? && |src.kids| >= 1 && |tbl| == TableSize(src.newMode, |src.kids|)
    && (forall j | 0 <= j < |tbl| :: tbl[j] < |src.kids|)
    && (src.newMode != RANDOM ==> tbl == Plain(src.newMode, |src.kids|))
  }

  lemma OrderlyKids(src: Source, tbl: seq<nat>)
    requires Orderly(src) && TableOf(src, tbl)
    ensures forall j | 0 <= j < |src.kids| :: Tame(src.kids[j])
    ensures |tbl| >= 2 && Resettable(src.kids[tbl[|tbl| - 1]])
  {
    forall j | 0 <= j < |src.kids|
      ensures Tame(src.kids[j])
    {
      if Resettable(src.kids[j]) {
        ResettableIsTame(src.kids[j]);
      } else {
        assert src.kids[j] in src.kids;
        if Tame(src) {
          assert j < |src.kids| - 1 && src.kids[..|src.kids| - 1][j] == src.kids[j];
        } else {
          assert j > 0 && src.kids[1..][j - 1] == src.kids[j];
        }
      }
    }
  }

  /** At entry i of a pass: every child but the current one is primed, and playing in order the first one is at its
      start once it has been passed. */
  predicate Holding(src: Source, pb: Pb, tbl: seq<nat>, i: nat)
    requires Match(src, pb)
  {
    At(src, pb, tbl, i) && TableOf(src, tbl)
    && (forall j | 0 <= j < |src.kids| && j != tbl[i] :: Primed(src.kids[j], pb.kids[j]))
    && (src.newMode == SEQUENTIAL && i > 0 ==> AtStart(src.kids[0], pb.kids[0]))
  }

  /** What is left to show at entry i, after the rest of the current child. */
  function LeftAfter(src: Source, pb: Pb, tbl: seq<nat>, i: nat, sh: Shuffle): Frames
    requires Match(src, pb) && At(src, pb, tbl, i) && TableOf(src, tbl) && Shuffles(sh)
  {
    (if i == |tbl| - 1 then [] else Pass(src, tbl, i + 1)) + Passes(src, pb.who, pb.draws, PassesLeft(src, pb), sh)
  }

  /** The lists line up from one entry to the next, and from one pass to the next. */
  lemma LeftAfterNext(src: Source, pb: Pb, q: Pb, tbl: seq<nat>, i: nat, sh: Shuffle)
    requires Match(src, pb) && At(src, pb, tbl, i) && Match(src, q) && At(src, q, tbl, i + 1)
    requires TableOf(src, tbl) && Shuffles(sh)
    requires q.passes == pb.passes && q.who == pb.who && q.draws == pb.draws
    ensures LeftAfter(src, pb, tbl, i, sh)
            == (if i + 1 < |tbl| - 1 then FramesOf(src.kids[tbl[i + 1]]) else First(FramesOf(src.kids[tbl[i + 1]])))
               + LeftAfter(src, q, tbl, i + 1, sh)
  {
    hide FramesOf, Passes;
    var head := FramesOf(src.kids[tbl[i + 1]]);
    var passes := Passes(src, pb.who, pb.draws, PassesLeft(src, pb), sh);
    if i + 1 < |tbl| - 1 {
      assert Pass(src, tbl, i + 1) == head + Pass(src, tbl, i + 2);
      Regroup(head, Pass(src, tbl, i + 2), passes);
    } else {
      assert Pass(src, tbl, i + 1) == First(head);
      assert [] + passes == passes;
    }
  }

  lemma LeftAfterNewPass(src: Source, pb: Pb, q: Pb, sh: Shuffle)
    requires src.Sequencer? && Match(src, q) && At(src, q, q.tbl, 0) && pb.SeqPb? && Shuffles(sh)
    requires q.tbl == TableAt(src, pb.who, pb.draws, sh) && TableOf(src, q.tbl) && |q.tbl| >= 2
    requires q.passes == pb.passes + 1 <= src.repeats && q.who == pb.who
    requires q.draws == if src.newMode == RANDOM then pb.draws + 1 else pb.draws
    ensures FramesOf(src.kids[q.tbl[0]]) + LeftAfter(src, q, q.tbl, 0, sh)
         == Passes(src, pb.who, pb.draws, PassesLeft(src, pb), sh)
  {
    hide FramesOf;
    Regroup(FramesOf(src.kids[q.tbl[0]]), Pass(src, q.tbl, 1), Passes(src, q.who, q.draws, PassesLeft(src, q), sh));
  }

  lemma {:induction false} SeqGives(src: Source, pb: Pb, tbl: seq<nat>, i: nat, rest: Frames, sh: Shuffle)
    requires Match(src, pb) && Shuffles(sh) && Orderly(src) && Holding(src, pb, tbl, i) && i < |tbl| - 1
    requires Gives(src.kids[tbl[i]], pb.kids[tbl[i]], rest, sh)
    ensures Gives(src, pb, rest + LeftAfter(src, pb, tbl, i, sh), sh)
    decreases src, 0, PassesLeft(src, pb), |tbl| - i, |rest|, 2
  {
    var fs := rest + LeftAfter(src, pb, tbl, i, sh);
    forall now: int
      ensures GivesNow(src, pb, fs, sh, now)
    {
      SeqGivesNow(src, pb, tbl, i, rest, sh, now);
    }
    assert Gives(src, pb, fs, sh);
  }

  /** Inside a pass: the rest of the current child's list, then the rest of the pass, then the passes left. */
  lemma {:induction false} SeqGivesNow(src: Source, pb: Pb, tbl: seq<nat>, i: nat, rest: Frames, sh: Shuffle, now: int)
    requires Match(src, pb) && Shuffles(sh) && Orderly(src) && Holding(src, pb, tbl, i) && i < |tbl| - 1
    requires Gives(src.kids[tbl[i]], pb.kids[tbl[i]], rest, sh)
    ensures GivesNow(src, pb, rest + LeftAfter(src, pb, tbl, i, sh), sh, now)
    decreases src, 0, PassesLeft(src, pb), |tbl| - i, |rest|, 1
  {
    var k := tbl[i];
    var kid := Next(src.kids[k], pb.kids[k], now, sh).1;
    assert GivesNow(src.kids[k], pb.kids[k], rest, sh, now);
    OrderlyKids(src, tbl);
    if rest != [] {
      NextGivesFrame(src, pb, tbl, i, now, sh);
      SeqGives(src, WithKid(pb, k, kid), tbl, i, rest[1..], sh);
      assert (rest + LeftAfter(src, pb, tbl, i, sh))[1..]
          == rest[1..] + LeftAfter(src, WithKid(pb, k, kid), tbl, i, sh);
    } else {
      NullGivesNow(src, pb, tbl, i, sh, now);
      assert rest + LeftAfter(src, pb, tbl, i, sh) == LeftAfter(src, pb, tbl, i, sh);
    }
  }

  /** The state a sequencer is in after the child at entry i returned null and the next one was reset. */
  lemma MovedOnHolds(src: Source, pb: Pb, tbl: seq<nat>, i: nat, sh: Shuffle, now: int) returns (q: Pb)
    requires Match(src, pb) && Shuffles(sh) && Orderly(src) && Holding(src, pb, tbl, i) && i < |tbl| - 1
    requires var (f, kid) := Next(src.kids[tbl[i]], pb.kids[tbl[i]], now, sh);
             f == None && AtStart(src.kids[tbl[i]], kid)
    ensures Match(src, q) && Holding(src, q, tbl, i + 1) && AtStart(src.kids[tbl[i + 1]], q.kids[tbl[i + 1]])
    ensures q.passes == pb.passes && q.who == pb.who && q.draws == pb.draws
    ensures Next(src, pb, now, sh) == Pull(src, q, now, sh)
    ensures i + 1 < |tbl| - 1 ==> Next(src, pb, now, sh) == Next(src, q, now, sh)
  {
    hide Next, Pull, Orderly, AtStart, Primed, Tame, Resettable, Plain;
    var kid := Next(src.kids[tbl[i]], pb.kids[tbl[i]], now, sh).1;
    OrderlyKids(src, tbl);
    StartIsPrimed(src.kids[tbl[i]], kid);
    q := NextMovesOn(src, pb, tbl, i, now, sh);
    ResetStarts(src.kids[tbl[i + 1]], WithKid(pb, tbl[i], kid).kids[tbl[i + 1]], now, sh);
  }

  /** A child's null is never seen outside: the same call goes on to the next entry. */
  lemma {:induction false} NullGivesNow(src: Source, pb: Pb, tbl: seq<nat>, i: nat, sh: Shuffle, now: int)
    requires Match(src, pb) && Shuffles(sh) && Orderly(src) && Holding(src, pb, tbl, i) && i < |tbl| - 1
    requires Gives(src.kids[tbl[i]], pb.kids[tbl[i]], [], sh)
    ensures GivesNow(src, pb, LeftAfter(src, pb, tbl, i, sh), sh, now)
    decreases src, 0, PassesLeft(src, pb), |tbl| - i, 0, 0
  {
    hide Next, Pull, FramesOf, AtStart, Primed, Tame, Pass, Passes;
    assert GivesNow(src.kids[tbl[i]], pb.kids[tbl[i]], [], sh, now);
    OrderlyKids(src, tbl);
    var q := MovedOnHolds(src, pb, tbl, i, sh, now);
    LeftAfterNext(src, pb, q, tbl, i, sh);
    var list := FramesOf(src.kids[tbl[i + 1]]);
    TameGives(src.kids[tbl[i + 1]], q.kids[tbl[i + 1]], sh);
    if i + 1 < |tbl| - 1 {
      SeqGivesNow(src, q, tbl, i + 1, list, sh, now);
    } else {
      LastEntryGives(src, q, tbl, list, sh, now);
    }
  }

  /** What a pull at the last entry returns, and what the call after it then returns. */
  ghost predicate PullGives(src: Source, q: Pb, fs: Frames, sh: Shuffle, now: int)
    requires src.Sequencer? && Match(src, q) && Shuffles(sh) && q.pos < |q.tbl|
  {
    var (f, next) := Pull(src, q, now, sh);
    if fs == [] then f == None && (Tame(src) ==> AtStart(src, next)) && (TurnsBack(src) ==> Again(src, next, sh))
    else f == Some(fs[0]) && Gives(src, next, fs[1..], sh)
  }

  /** Going back and forth, a pass ends with the first child, and with the first of its frames. */
  ghost predicate Spent(src: Source, pb: Pb, sh: Shuffle)
    requires Match(src, pb) && Shuffles(sh) && src.Sequencer? && |src.kids| >= 2
  {
    TurnsBack(src) ==> Gives(src.kids[0], pb.kids[0], Tail(FramesOf(src.kids[0])), sh)
  }

  lemma TurnsBackEnds(src: Source, tbl: seq<nat>)
    requires TurnsBack(src) && TableOf(src, tbl)
    ensures tbl == Plain(PINGPONG, |src.kids|) && tbl[|tbl| - 1] == tbl[0] == 0
  {
  }

  /** The last entry contributes the first frame of its child at most. */
  lemma {:induction false} LastEntryGives(src: Source, q: Pb, tbl: seq<nat>, list: Frames, sh: Shuffle, now: int)
    requires Match(src, q) && Shuffles(sh) && Orderly(src) && |tbl| >= 2 && Holding(src, q, tbl, |tbl| - 1)
    requires list == FramesOf(src.kids[tbl[|tbl| - 1]])
    requires Gives(src.kids[tbl[|tbl| - 1]], q.kids[tbl[|tbl| - 1]], list, sh)
    ensures PullGives(src, q, First(list) + Passes(src, q.who, q.draws, PassesLeft(src, q), sh), sh, now)
    decreases src, 0, PassesLeft(src, q), 1, 0, 0
  {
    hide Next, Pull, FramesOf, Passes, Again, Plain;
    var k := tbl[|tbl| - 1];
    assert GivesNow(src.kids[k], q.kids[k], list, sh, now);
    var kid := Next(src.kids[k], q.kids[k], now, sh).1;
    NextAtLastGivesFrame(src, q, tbl, now, sh);
    OrderlyKids(src, tbl);
    ResettableIsPrimed(src.kids[k], kid);
    var last := WithKid(q, k, kid);
    if TurnsBack(src) {
      TurnsBackEnds(src, tbl);
      if list == [] { TameGives(src.kids[0], kid, sh); }
    }
    var passes := Passes(src, q.who, q.draws, PassesLeft(src, q), sh);
    if list == [] {
      LastGivesNow(src, last, tbl, sh, now);
      assert First(list) + passes == passes;
    } else {
      LastGives(src, last, tbl, sh);
      assert (First(list) + passes)[1..] == passes;
    }
  }

  lemma {:induction false} LastGives(src: Source, pb: Pb, tbl: seq<nat>, sh: Shuffle)
    requires Match(src, pb) && Shuffles(sh) && Orderly(src) && |tbl| >= 2 && Holding(src, pb, tbl, |tbl| - 1)
    requires Spent(src, pb, sh)
    ensures Gives(src, pb, Passes(src, pb.who, pb.draws, PassesLeft(src, pb), sh), sh)
    decreases src, 0, PassesLeft(src, pb), 0, 0, 1
  {
    var fs := Passes(src, pb.who, pb.draws, PassesLeft(src, pb), sh);
    forall now: int
      ensures GivesNow(src, pb, fs, sh, now)
    {
      LastGivesNow(src, pb, tbl, sh, now);
    }
    assert Gives(src, pb, fs, sh);
  }

  /** A new pass begins with every child at its start. */
  lemma NewPassHolds(src: Source, pb: Pb, tbl: seq<nat>, sh: Shuffle, now: int) returns (q: Pb)
    requires Match(src, pb) && Shuffles(sh) && Orderly(src) && |tbl| >= 2 && Holding(src, pb, tbl, |tbl| - 1)
    requires pb.passes < src.repeats
    ensures Match(src, q) && q.tbl == TableAt(src, pb.who, pb.draws, sh)
    ensures Holding(src, q, q.tbl, 0) && |q.tbl| == |tbl|
    ensures AtStart(src.kids[q.tbl[0]], q.kids[q.tbl[0]])
    ensures q.passes == pb.passes + 1 && q.who == pb.who
    ensures q.draws == if src.newMode == RANDOM then pb.draws + 1 else pb.draws
    ensures Next(src, pb, now, sh) == Next(src, q, now, sh)
  {
    OrderlyKids(src, tbl);
    ResettableIsPrimed(src.kids[tbl[|tbl| - 1]], pb.kids[tbl[|tbl| - 1]]);
    q := NextStartsOver(src, pb, tbl, now, sh);
    forall j | 0 <= j < |src.kids|
      ensures AtStart(src.kids[j], q.kids[j]) && Primed(src.kids[j], q.kids[j])
    {
      ResetStarts(src.kids[j], pb.kids[j], now, sh);
      StartIsPrimed(src.kids[j], q.kids[j]);
    }
  }

  lemma EndsAtStart(src: Source, pb: Pb, tbl: seq<nat>, sh: Shuffle, now: int)
    requires Match(src, pb) && Shuffles(sh) && Orderly(src) && Tame(src)
    requires |tbl| >= 2 && Holding(src, pb, tbl, |tbl| - 1)
    ensures AtStart(src, Reset(src, pb, now, sh))
  {
    OrderlyKids(src, tbl);
    ResettableIsPrimed(src.kids[tbl[|tbl| - 1]], pb.kids[tbl[|tbl| - 1]]);
    ResetStarts(src, pb, now, sh);
  }

  lemma EndsAgain(src: Source, pb: Pb, tbl: seq<nat>, sh: Shuffle, now: int)
    requires Match(src, pb) && Shuffles(sh) && Orderly(src) && TurnsBack(src)
    requires |tbl| >= 2 && Holding(src, pb, tbl, |tbl| - 1) && Spent(src, pb, sh)
    ensures Again(src, Reset(src, pb, now, sh), sh)
  {
    hide Gives, FramesOf, Primed, AtStart, Resettable, Tame;
    TurnsBackEnds(src, tbl);
    ResetIndexFits(WithPos(pb, 0, 0), |src.kids|, sh);
  }

  /** At the last entry the end test comes first: the passes left, each from a fresh table and with every child reset,
      and then null. */
  lemma {:induction false} LastGivesNow(src: Source, pb: Pb, tbl: seq<nat>, sh: Shuffle, now: int)
    requires Match(src, pb) && Shuffles(sh) && Orderly(src) && |tbl| >= 2 && Holding(src, pb, tbl, |tbl| - 1)
    requires Spent(src, pb, sh)
    ensures GivesNow(src, pb, Passes(src, pb.who, pb.draws, PassesLeft(src, pb), sh), sh, now)
    decreases src, 0, PassesLeft(src, pb), 0, 0, 0
  {
    if pb.passes >= src.repeats {
      hide Next, Again;
      NextEnds(src, pb, tbl, now, sh);
      if Tame(src) { EndsAtStart(src, pb, tbl, sh, now); }
      if TurnsBack(src) { EndsAgain(src, pb, tbl, sh, now); }
    } else {
      hide Next, FramesOf, TableAt, AtStart, Primed, Tame, Pass, Passes;
      var q := NewPassHolds(src, pb, tbl, sh, now);
      var k := q.tbl[0];
      OrderlyKids(src, tbl);
      TameGives(src.kids[k], q.kids[k], sh);
      SeqGivesNow(src, q, q.tbl, 0, FramesOf(src.kids[k]), sh, now);
      LeftAfterNewPass(src, pb, q, sh);
    }
  }

  // Sequencers with one child

  lemma {:induction false} TimesNothing(k: nat)
    ensures Times([], k) == []
  {
    if k > 0 {
      TimesNothing(k - 1);
    }
  }

  /** With one child every call starts a new pass, until they are used up. */
  lemma NextSingle(src: Source, pb: Pb, now: int, sh: Shuffle) returns (q: Pb)
    requires src.Sequencer? && |src.kids| == 1 && Match(src, pb) && Shuffles(sh) && pb.tbl != []
    ensures Match(src, q) && q.tbl == [0]
    ensures pb.passes >= src.repeats ==> Next(src, pb, now, sh) == (None, q) && q.passes == 0
    ensures pb.passes < src.repeats ==>
              q.passes == pb.passes + 1 && q.kids[0] == Reset(src.kids[0], pb.kids[0], now, sh)
              && q.mode == src.newMode && q.pos == 0 && Next(src, pb, now, sh) == Pull(src, q, now, sh)
  {
    var switched := SeqPb(src.newMode, pb.pos, pb.passes, pb.tbl, pb.who, pb.draws, pb.kids);
    ResetIndexFits(switched, 1, sh);
    var p := if pb.mode != src.newMode then ResetIndex(switched, 1, sh) else pb;
    assert AtEnd(p) && Next(src, pb, now, sh) == Loop(src, p, now, sh);
    if pb.passes >= src.repeats {
      q := Reset(src, p, now, sh);
      ResetIndexFits(WithPos(p, 0, 0), 1, sh);
    } else {
      q := NewPass(src, p, now, sh);
    }
  }

  lemma PullSingle(src: Source, q: Pb, now: int, sh: Shuffle)
    requires src.Sequencer? && |src.kids| == 1 && Match(src, q) && Shuffles(sh) && q.tbl == [0] && q.pos == 0
    requires q.mode == src.newMode
    ensures var (f, kid) := Next(src.kids[0], q.kids[0], now, sh);
            Match(src, WithKid(q, 0, kid))
            && Pull(src, q, now, sh) == if f.Some? then (f, WithKid(q, 0, kid))
                                        else Next(src, WithKid(q, 0, kid), now, sh)
  {
    var (f, kid) := Next(src.kids[0], q.kids[0], now, sh);
    var p := WithKid(q, 0, kid);
    assert Refilled(q, 1, sh) == q;
    if f.None? {
      assert Pull(src, q, now, sh) == Advance(src, p, now, sh) == Loop(src, p, now, sh) == Next(src, p, now, sh);
    }
  }

  lemma {:induction false} SingleGives(src: Source, pb: Pb, sh: Shuffle)
    requires src.Sequencer? && |src.kids| == 1 && Tame(src) && Match(src, pb) && Shuffles(sh) && pb.tbl != []
    ensures Gives(src, pb, Times(First(FramesOf(src.kids[0])), PassesLeft(src, pb)), sh)
    decreases src, 0, PassesLeft(src, pb), 0, 0, 1
  {
    var fs := Times(First(FramesOf(src.kids[0])), PassesLeft(src, pb));
    forall now: int
      ensures GivesNow(src, pb, fs, sh, now)
    {
      SingleGivesNow(src, pb, sh, now);
    }
    assert Gives(src, pb, fs, sh);
  }

  /** With one child, each pass shows its first frame only. */
  lemma {:induction false} SingleGivesNow(src: Source, pb: Pb, sh: Shuffle, now: int)
    requires src.Sequencer? && |src.kids| == 1 && Tame(src) && Match(src, pb) && Shuffles(sh) && pb.tbl != []
    ensures GivesNow(src, pb, Times(First(FramesOf(src.kids[0])), PassesLeft(src, pb)), sh, now)
    decreases src, 0, PassesLeft(src, pb), 0, 0, 0
  {
    hide Next, Pull, FramesOf, Reset;
    var q := NextSingle(src, pb, now, sh);
    if pb.passes < src.repeats {
      var kid := src.kids[0];
      ResettableIsPrimed(kid, pb.kids[0]);
      ResettableIsTame(kid);
      ResetStarts(kid, pb.kids[0], now, sh);
      TameGives(kid, q.kids[0], sh);
      var list := FramesOf(kid);
      assert GivesNow(kid, q.kids[0], list, sh, now);
      PullSingle(src, q, now, sh);
      var next := WithKid(q, 0, Next(kid, q.kids[0], now, sh).1);
      var left := Times(First(list), PassesLeft(src, next));
      if list == [] {
        SingleGivesNow(src, next, sh, now);
        TimesNothing(PassesLeft(src, pb));
        TimesNothing(PassesLeft(src, next));
      } else {
        SingleGives(src, next, sh);
        assert (First(list) + left)[1..] == left;
      }
    }
  }

  // Whole trees

  lemma {:induction false} PassesInOrder(src: Source, who: seq<nat>, draws: nat, k: nat, sh: Shuffle)
    requires src.Sequencer? && |src.kids| >= 1 && Shuffles(sh) && src.newMode != RANDOM
    ensures Passes(src, who, draws, k, sh) == Times(Pass(src, Plain(src.newMode, |src.kids|), 0), k)
  {
    if k > 0 {
      PassesInOrder(src, who, draws, k - 1, sh);
    }
  }

  /** The first call on a new or reset playback fills the table, or switches the mode, and then plays from entry 0. */
  lemma Fills(src: Source, pb: Pb, now: int, sh: Shuffle) returns (q: Pb)
    requires src.Sequencer? && |src.kids| >= 2 && src.newMode == SEQUENTIAL && Match(src, pb) && Shuffles(sh)
    requires pb.passes == 0 && pb.pos == 0
    requires pb.mode != src.newMode || pb.tbl == [] || pb.tbl == Plain(SEQUENTIAL, |src.kids|)
    ensures q == SeqPb(SEQUENTIAL, 0, 0, Plain(SEQUENTIAL, |src.kids|), pb.who, pb.draws, pb.kids)
    ensures Match(src, q) && Next(src, pb, now, sh) == Next(src, q, now, sh)
  {
    var n := |src.kids|;
    q := SeqPb(SEQUENTIAL, 0, 0, Plain(SEQUENTIAL, n), pb.who, pb.draws, pb.kids);
    assert Refilled(q, n, sh) == q;
    assert Next(src, q, now, sh) == Loop(src, q, now, sh) == Pull(src, q, now, sh);
    if pb.mode == SEQUENTIAL && pb.tbl == [] {
      assert Refilled(pb, n, sh) == q;
      assert Next(src, pb, now, sh) == Loop(src, pb, now, sh) == Pull(src, pb, now, sh);
    }
  }

  lemma StartFills(src: Source, pb: Pb, now: int, sh: Shuffle) returns (q: Pb)
    requires Match(src, pb) && Shuffles(sh) && Tame(src) && AtStart(src, pb) && src.Sequencer? && |src.kids| >= 2
    ensures Match(src, q) && Holding(src, q, Plain(SEQUENTIAL, |src.kids|), 0) && q.passes == 0
    ensures AtStart(src.kids[0], q.kids[0])
    ensures Next(src, pb, now, sh) == Next(src, q, now, sh)
  {
    hide Next;
    q := Fills(src, pb, now, sh);
  }

  lemma OrderedList(src: Source, who: seq<nat>, draws: nat, sh: Shuffle)
    requires Tame(src) && src.Sequencer? && |src.kids| >= 2 && Shuffles(sh)
    ensures FramesOf(src) == Pass(src, Plain(SEQUENTIAL, |src.kids|), 0) + Passes(src, who, draws, src.repeats, sh)
  {
    assert Iota(|src.kids|) == Plain(SEQUENTIAL, |src.kids|);
    PassesInOrder(src, who, draws, src.repeats, sh);
  }

  /** The theorem: at its start, a tame tree of any depth shows exactly its list, then null, and is at its start
      again. */
  lemma {:induction false} TameGives(src: Source, pb: Pb, sh: Shuffle)
    requires Match(src, pb) && Shuffles(sh) && Tame(src) && AtStart(src, pb)
    ensures Gives(src, pb, FramesOf(src), sh)
    decreases src, 1
  {
    match src
    case Static(_, _, _, _, _) => LeafGives(src, pb, sh);
    case Rotator(_, _, kids) =>
      if |kids| == 1 {
        TameGives(kids[0], pb.kids[0], sh);
        RotatorGives(src, pb, FramesOf(kids[0]), sh);
      }
    case Sequencer(_, _, _, _, kids) =>
      if |kids| == 1 {
        SingleGives(src, pb, sh);
      } else {
        forall now: int
          ensures GivesNow(src, pb, FramesOf(src), sh, now)
        {
          InOrderGivesNow(src, pb, sh, now);
        }
      }
  }

  lemma {:induction false} InOrderGivesNow(src: Source, pb: Pb, sh: Shuffle, now: int)
    requires Match(src, pb) && Shuffles(sh) && Tame(src) && AtStart(src, pb) && src.Sequencer? && |src.kids| >= 2
    ensures GivesNow(src, pb, FramesOf(src), sh, now)
    decreases src, 0, src.repeats + 1, 0, 0, 0
  {
    hide Next, AtStart, Primed, Pass, Passes;
    var tbl := Plain(SEQUENTIAL, |src.kids|);
    var q := StartFills(src, pb, now, sh);
    var list := FramesOf(src.kids[0]);
    TameGives(src.kids[0], q.kids[0], sh);
    SeqGivesNow(src, q, tbl, 0, list, sh, now);
    OrderedList(src, q.who, q.draws, sh);
    PassFirst(src, tbl);
    assert list + LeftAfter(src, q, tbl, 0, sh) == FramesOf(src);
  }

  lemma PassFirst(src: Source, tbl: seq<nat>)
    requires src.Sequencer? && |tbl| >= 2 && forall j | 0 <= j < |tbl| :: tbl[j] < |src.kids|
    ensures Pass(src, tbl, 0) == FramesOf(src.kids[tbl[0]]) + Pass(src, tbl, 1)
  {
  }
}
