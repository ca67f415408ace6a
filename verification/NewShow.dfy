/** What a tree shows the first time when its first child, or the first child of that, and so on, is a sequencer with
    one child: with its table still empty, a new playback of it shows one frame more than it does from a reset. */
module NewShow {
  import opened Wrappers
  import opened Sources
  import opened IndexTable
  import opened Playback
  import opened Traces
  import opened TraceTheorems

  /** Trees where that can happen along the first children only. */
  predicate FirstNew(src: Source) {
    match src
    case Static(_, _, _, _, _) => true
    case Sequencer(_, _, _, _, kids) =>
      |kids| >= 1 && FirstNew(kids[0]) && forall i | 1 <= i < |kids| :: NewPrimed(kids[i])
    case Rotator(_, _, kids) => forall k | k in kids :: FirstNew(k)
  }

  /** What a new playback shows up to its first null. A sequencer with one child whose mode is about to be switched
      fills its table first, and so shows nothing more. */
  function NewFrames(src: Source): Frames
    requires Tame(src)
  {
    match src
    case Static(_, _, _, _, _) => FramesOf(src)
    case Rotator(_, _, kids) => if |kids| == 0 then [] else NewFrames(kids[0])
    case Sequencer(_, mode, newMode, repeats, kids) =>
      OneKidTame(src);
      if |kids| == 1 then
        (if mode == newMode then First(NewFrames(kids[0])) else []) + Times(First(FramesOf(kids[0])), repeats)
      else
        NewFrames(kids[0]) + (Pass(src, Plain(SEQUENTIAL, |kids|), 1)
                              + Times(Pass(src, Plain(SEQUENTIAL, |kids|), 0), repeats))
  }

  /** What a loaded playback shows up to its first null: a sequencer with one child has been reset. */
  function LoadedFrames(src: Source): Frames
    requires Tame(src)
  {
    match src
    case Static(_, _, _, _, _) => FramesOf(src)
    case Rotator(_, _, kids) => if |kids| == 0 then [] else LoadedFrames(kids[0])
    case Sequencer(_, _, _, _, kids) => if |kids| == 1 then FramesOf(src) else NewFrames(src)
  }

  lemma OneKidTame(src: Source)
    requires src.Sequencer? && Tame(src)
    ensures |src.kids| >= 1 && Tame(src.kids[0])
  {
    if |src.kids| == 1 {
      ResettableIsTame(src.kids[0]);
    } else {
      assert src.kids[..|src.kids| - 1][0] == src.kids[0];
    }
  }

  // Sequencers with one child

  lemma NewSingle(src: Source, pb: Pb, list: Frames, sh: Shuffle, now: int)
    requires src.Sequencer? && |src.kids| == 1 && Tame(src) && Match(src, pb) && Shuffles(sh)
    requires pb.tbl == [] && pb.pos == 0 && pb.passes == 0 && Gives(src.kids[0], pb.kids[0], list, sh)
    ensures GivesNow(src, pb, (if pb.mode == src.newMode then First(list) else [])
                              + Times(First(FramesOf(src.kids[0])), src.repeats), sh, now)
  {
    hide FramesOf, Tame, Gives;
    var q := SeqPb(src.newMode, 0, 0, [0], pb.who, pb.draws, pb.kids);
    var more := Times(First(FramesOf(src.kids[0])), src.repeats);
    var r := NewFills(src, pb, now, sh);
    if pb.mode != src.newMode {
      SingleGivesNow(src, r, sh, now);
      assert [] + more == more;
    } else {
      GivesAt(src.kids[0], r.kids[0], list, sh, now);
      PullSingle(src, r, now, sh);
      var next := WithKid(r, 0, Next(src.kids[0], r.kids[0], now, sh).1);
      if list == [] {
        SingleGivesNow(src, next, sh, now);
        assert [] + more == more;
      } else {
        SingleGives(src, next, sh);
        assert (First(list) + more)[1..] == more;
      }
    }
  }

  /** The first call fills the table; if the mode is switched it is at its end at once. */
  lemma NewFills(src: Source, pb: Pb, now: int, sh: Shuffle) returns (r: Pb)
    requires src.Sequencer? && |src.kids| == 1 && Match(src, pb) && Shuffles(sh)
    requires pb.tbl == [] && pb.pos == 0 && pb.passes == 0
    ensures Match(src, r) && r.tbl == [0] && r.pos == 0 && r.passes == 0 && r.kids == pb.kids && r.mode == src.newMode
    ensures Next(src, pb, now, sh) == if pb.mode != src.newMode then Next(src, r, now, sh) else Pull(src, r, now, sh)
  {
    var switched := SeqPb(src.newMode, 0, 0, [], pb.who, pb.draws, pb.kids);
    ResetIndexFits(switched, 1, sh);
    r := ResetIndex(switched, 1, sh);
    if src.newMode == RANDOM { PermutationFits(r.tbl, 1); }
    assert r.tbl == [0];
    if pb.mode != src.newMode {
      assert Next(src, pb, now, sh) == Loop(src, r, now, sh) == Next(src, r, now, sh);
    } else {
      assert pb == switched && Refilled(pb, 1, sh) == r && Refilled(r, 1, sh) == r;
      assert Next(src, pb, now, sh) == Loop(src, pb, now, sh) == Pull(src, pb, now, sh) == Pull(src, r, now, sh);
    }
  }

  // Sequencers with more

  lemma NewInOrder(src: Source, pb: Pb, list: Frames, sh: Shuffle, now: int)
    requires src.Sequencer? && |src.kids| >= 2 && Tame(src) && Match(src, pb) && Shuffles(sh)
    requires pb.passes == 0 && pb.pos == 0
    requires pb.mode != src.newMode || pb.tbl == [] || pb.tbl == Plain(src.newMode, |src.kids|)
    requires forall i | 1 <= i < |src.kids| :: Primed(src.kids[i], pb.kids[i])
    requires Gives(src.kids[0], pb.kids[0], list, sh)
    ensures GivesNow(src, pb, list + (Pass(src, Plain(SEQUENTIAL, |src.kids|), 1)
                                      + Times(Pass(src, Plain(SEQUENTIAL, |src.kids|), 0), src.repeats)), sh, now)
  {
    hide Next, AtStart, Primed, Pass, Passes, FramesOf, Resettable;
    var tbl := Plain(SEQUENTIAL, |src.kids|);
    var q := Fills(src, pb, now, sh);
    SeqGivesNow(src, q, tbl, 0, list, sh, now);
    PassesInOrder(src, q.who, q.draws, src.repeats, sh);
  }

  // Trees

  /** The first show of a new playback. */
  lemma {:induction false} NewGives(src: Source, who: seq<nat>, start: int, sh: Shuffle)
    requires Playable(src) && Shuffles(sh) && Tame(src) && FirstNew(src)
    ensures Gives(src, CreatePlayback(src, who, start), NewFrames(src), sh)
    decreases src
  {
    var pb := CreatePlayback(src, who, start);
    match src
    case Static(_, _, _, _, _) => LeafGives(src, pb, sh);
    case Rotator(_, _, kids) =>
      if |kids| == 1 {
        NewGives(kids[0], who + [0], start, sh);
        RotatorGives(src, pb, NewFrames(kids[0]), sh);
      } else {
        NoKid(src, pb, sh);
      }
    case Sequencer(_, _, _, _, kids) =>
      OneKidTame(src);
      NewGives(kids[0], who + [0], start, sh);
      assert pb.kids[0] == CreatePlayback(kids[0], who + [0], start);
      if |kids| >= 2 { OthersPrimed(src, who, start); }
      forall now: int
        ensures GivesNow(src, pb, NewFrames(src), sh, now)
      {
        hide FramesOf, Gives, Next, Tame, CreatePlayback, GivesNow, Pass, Times;
        if |kids| == 1 {
          NewSingle(src, pb, NewFrames(kids[0]), sh, now);
        } else {
          NewInOrder(src, pb, NewFrames(kids[0]), sh, now);
        }
      }
      assert Gives(src, pb, NewFrames(src), sh);
  }

  lemma NoKid(src: Source, pb: Pb, sh: Shuffle)
    requires src.Rotator? && |src.kids| == 0 && Match(src, pb) && Shuffles(sh)
    ensures Gives(src, pb, [], sh)
  {
    forall now: int ensures GivesNow(src, pb, [], sh, now) {
    }
    assert Gives(src, pb, [], sh);
  }

  lemma OthersPrimed(src: Source, who: seq<nat>, start: int)
    requires Playable(src) && src.Sequencer? && FirstNew(src)
    ensures forall i | 1 <= i < |src.kids| :: Primed(src.kids[i], CreatePlayback(src, who, start).kids[i])
  {
    forall i | 1 <= i < |src.kids|
      ensures Primed(src.kids[i], CreatePlayback(src, who, start).kids[i])
    {
      CreatedPrimed(src.kids[i], who + [i], start);
    }
  }

  /** The first show of a playback that was made and reset, as the head does. */
  lemma {:induction false} LoadedGives(src: Source, who: seq<nat>, start: int, now: int, sh: Shuffle)
    requires Playable(src) && Shuffles(sh) && Tame(src) && FirstNew(src)
    ensures Gives(src, Loaded(src, who, start, now, sh), LoadedFrames(src), sh)
    decreases src
  {
    var pb := Loaded(src, who, start, now, sh);
    match src
    case Static(_, _, _, _, _) => LeafGives(src, pb, sh);
    case Rotator(_, _, kids) =>
      if |kids| == 1 {
        LoadedGives(kids[0], who + [0], start, now, sh);
        RotatorGives(src, pb, LoadedFrames(kids[0]), sh);
      } else {
        NoKid(src, pb, sh);
      }
    case Sequencer(_, _, _, _, kids) =>
      OneKidTame(src);
      if |kids| == 1 {
        ResetIndexFits(WithPos(CreatePlayback(src, who, start), 0, 0), 1, sh);
        SingleGives(src, pb, sh);
      } else {
        NewGives(kids[0], who + [0], start, sh);
        OthersPrimed(src, who, start);
        assert pb.kids[0] == CreatePlayback(kids[0], who + [0], start);
        forall at: int
          ensures GivesNow(src, pb, NewFrames(src), sh, at)
        {
          hide FramesOf, Gives, Next, Tame, CreatePlayback, GivesNow, Pass, Times;
          NewInOrder(src, pb, NewFrames(kids[0]), sh, at);
        }
        assert Gives(src, pb, NewFrames(src), sh);
      }
  }
}
