/** What a ping-pong sequencer shows the second time and after that. */
module SecondShow {
  import opened Wrappers
  import opened Sources
  import opened IndexTable
  import opened Playback
  import opened Traces
  import opened TraceTheorems

  // Every show of a loaded ping-pong sequencer

  /** The list of every show but the first, from that of the first. */
  function LaterShow(src: Source, first: Frames): Frames
    requires TurnsBack(src)
  {
    if FramesOf(src.kids[0]) == [] then first else Tail(first)
  }

  lemma FirstShow(src: Source, who: seq<nat>, pb: Pb, sh: Shuffle)
    requires TurnsBack(src) && Match(src, pb) && Shuffles(sh) && Holding(src, pb, Plain(PINGPONG, |src.kids|), 0)
    requires pb.passes == 0
    ensures Passes(src, who, 0, src.repeats + 1, sh)
         == FramesOf(src.kids[0]) + LeftAfter(src, pb, Plain(PINGPONG, |src.kids|), 0, sh)
  {
    hide FramesOf, Primed, AtStart, Resettable, Tame, Pass;
    var tbl := Plain(PINGPONG, |src.kids|);
    PassesInOrder(src, who, 0, src.repeats + 1, sh);
    PassesInOrder(src, pb.who, pb.draws, src.repeats, sh);
    PassFirst(src, tbl);
    Regroup(FramesOf(src.kids[0]), Pass(src, tbl, 1), Times(Pass(src, tbl, 0), src.repeats));
  }

  /** From the state it ends in, it shows the list without the first frame of its first child. */
  lemma AgainGives(src: Source, pb: Pb, who: seq<nat>, sh: Shuffle)
    requires Match(src, pb) && Shuffles(sh) && TurnsBack(src) && Again(src, pb, sh)
    ensures Gives(src, pb, LaterShow(src, Passes(src, who, 0, src.repeats + 1, sh)), sh)
  {
    hide FramesOf, Gives, Holding, Passes, Resettable, Tame;
    var tbl, list := Plain(PINGPONG, |src.kids|), FramesOf(src.kids[0]);
    assert tbl[0] == 0;
    SeqGives(src, pb, tbl, 0, Tail(list), sh);
    FirstShow(src, who, pb, sh);
    HoldingAt(src, pb, tbl, 0);
    var left := LeftAfter(src, pb, tbl, 0, sh);
    assert list != [] ==> Tail(list + left) == Tail(list) + left;
    assert list == [] ==> list + left == Tail(list) + left;
  }

  lemma HoldingAt(src: Source, pb: Pb, tbl: seq<nat>, i: nat)
    requires Match(src, pb) && Holding(src, pb, tbl, i)
    ensures At(src, pb, tbl, i) && TableOf(src, tbl)
  {
  }

  lemma {:induction false} AgainRounds(src: Source, pb: Pb, who: seq<nat>, clock: nat -> int, t: nat, k: nat,
                                       sh: Shuffle)
    requires Match(src, pb) && Shuffles(sh) && TurnsBack(src) && Again(src, pb, sh)
    ensures var later := LaterShow(src, Passes(src, who, 0, src.repeats + 1, sh));
            Calls(src, pb, clock, t, k * (|later| + 1), sh).0 == Rounds(later, k)
    decreases k
  {
    hide Next, FramesOf, Gives, Again, LaterShow, Passes, Tame, Resettable;
    if k > 0 {
      var later := LaterShow(src, Passes(src, who, 0, src.repeats + 1, sh));
      var m := |later| + 1;
      AgainGives(src, pb, who, sh);
      GivesCalls(src, pb, later, clock, t, sh);
      AgainRounds(src, Calls(src, pb, clock, t, m, sh).1, who, clock, t + m, k - 1, sh);
      CallsAdd(src, pb, clock, t, m, (k - 1) * m, sh);
      OneRoundMore(k, m);
    }
  }

  /** A loaded ping-pong sequencer of two or more children shows its passes and null, and then for ever the same list
      without its first frame and null; so it shows the same list again if and only if its first child has no frame. */
  lemma PingpongShows(src: Source, who: seq<nat>, start: int, now: int, clock: nat -> int, k: nat, sh: Shuffle)
    requires Playable(src) && Shuffles(sh) && Ready(src) && src.newMode == PINGPONG
    ensures TurnsBack(src)
    ensures var first := Passes(src, who, 0, src.repeats + 1, sh);
            var later := LaterShow(src, first);
            Calls(src, Loaded(src, who, start, now, sh), clock, 0, |first| + 1 + k * (|later| + 1), sh).0
            == Returned(first) + Rounds(later, k)
            && (later == first <==> FramesOf(src.kids[0]) == [])
  {
    hide Next, FramesOf, Gives, Again, Passes, Loaded, Ready;
    ReadyTurnsBack(src);
    var pb := Loaded(src, who, start, now, sh);
    var first := Passes(src, who, 0, src.repeats + 1, sh);
    var later := LaterShow(src, first);
    SequencerGives(src, who, start, now, sh);
    GivesCalls(src, pb, first, clock, 0, sh);
    var next := Calls(src, pb, clock, 0, |first| + 1, sh).1;
    AgainRounds(src, next, who, clock, |first| + 1, k, sh);
    CallsAdd(src, pb, clock, 0, |first| + 1, k * (|later| + 1), sh);
    FirstNotEmpty(src, who, sh);
  }

  lemma ReadyTurnsBack(src: Source)
    requires Ready(src) && src.newMode == PINGPONG
    ensures TurnsBack(src)
  {
    forall k | k in src.kids && Resettable(k)
      ensures Tame(k)
    {
      ResettableIsTame(k);
    }
  }

  lemma FirstNotEmpty(src: Source, who: seq<nat>, sh: Shuffle)
    requires TurnsBack(src) && Shuffles(sh)
    ensures FramesOf(src.kids[0]) != [] ==> Passes(src, who, 0, src.repeats + 1, sh) != []
  {
    hide FramesOf;
    PassFirst(src, Plain(PINGPONG, |src.kids|));
  }

  // One at work

  /** Two points played back and forth, each for one frame. */
  function BackAndForth(a: Point, b: Point): Source {
    Sequencer("", PINGPONG, PINGPONG, 0, [Static("", [a], false, 0, 1), Static("", [b], false, 0, 1)])
  }

  function Midway(pos: nat, i: nat, j: nat, s: int, t: int): Pb {
    SeqPb(PINGPONG, pos, 0, [0, 1, 0], [], 0, [LeafPb(true, i, s), LeafPb(true, j, t)])
  }

  lemma MidwayFits(a: Point, b: Point, pos: nat, i: nat, j: nat, s: int, t: int)
    ensures Match(BackAndForth(a, b), Midway(pos, i, j, s, t))
    ensures pos < 3 ==> At(BackAndForth(a, b), Midway(pos, i, j, s, t), [0, 1, 0], pos)
    ensures Plain(PINGPONG, 2) == [0, 1, 0]
  {
    assert Plain(PINGPONG, 2) == [0, 1, 0];
  }

  lemma MidwayFirst(a: Point, b: Point, s: int, t: int, now: int, sh: Shuffle)
    requires Shuffles(sh) && Match(BackAndForth(a, b), Midway(0, 0, 0, s, t))
    ensures Next(BackAndForth(a, b), Midway(0, 0, 0, s, t), now, sh) == (Some([a]), Midway(0, 1, 0, s, t))
  {
    var src, pb := BackAndForth(a, b), Midway(0, 0, 0, s, t);
    MidwayFits(a, b, 0, 0, 0, s, t);
    NextGivesFrame(src, pb, [0, 1, 0], 0, now, sh);
    assert WithKid(pb, 0, LeafPb(true, 1, s)) == Midway(0, 1, 0, s, t);
  }

  lemma MidwaySecond(a: Point, b: Point, s: int, t: int, now: int, sh: Shuffle)
    requires Shuffles(sh) && Match(BackAndForth(a, b), Midway(0, 1, 0, s, t))
    ensures Next(BackAndForth(a, b), Midway(0, 1, 0, s, t), now, sh) == (Some([b]), Midway(1, 0, 1, s, now))
  {
    var src, pb := BackAndForth(a, b), Midway(0, 1, 0, s, t);
    MidwayFits(a, b, 0, 1, 0, s, t);
    var q := NextMovesOn(src, pb, [0, 1, 0], 0, now, sh);
    assert q == Midway(1, 0, 0, s, now);
    NextGivesFrame(src, q, [0, 1, 0], 1, now, sh);
    assert WithKid(q, 1, LeafPb(true, 1, now)) == Midway(1, 0, 1, s, now);
  }

  lemma MidwayThird(a: Point, b: Point, s: int, t: int, now: int, sh: Shuffle)
    requires Shuffles(sh) && Match(BackAndForth(a, b), Midway(1, 0, 1, s, t))
    ensures Next(BackAndForth(a, b), Midway(1, 0, 1, s, t), now, sh) == (Some([a]), Midway(2, 1, 0, now, t))
  {
    var src, pb := BackAndForth(a, b), Midway(1, 0, 1, s, t);
    MidwayFits(a, b, 1, 0, 1, s, t);
    var q := NextMovesOn(src, pb, [0, 1, 0], 1, now, sh);
    assert q == Midway(2, 0, 0, now, t);
    NextAtLastGivesFrame(src, q, [0, 1, 0], now, sh);
    assert WithKid(q, 0, LeafPb(true, 1, now)) == Midway(2, 1, 0, now, t);
  }

  lemma MidwayEnds(a: Point, b: Point, s: int, t: int, now: int, sh: Shuffle)
    requires Shuffles(sh) && Match(BackAndForth(a, b), Midway(2, 1, 0, s, t))
    ensures Next(BackAndForth(a, b), Midway(2, 1, 0, s, t), now, sh) == (None, Midway(0, 1, 0, s, t))
  {
    MidwayFits(a, b, 2, 1, 0, s, t);
    NextEnds(BackAndForth(a, b), Midway(2, 1, 0, s, t), [0, 1, 0], now, sh);
  }

  lemma MidwayLoaded(a: Point, b: Point, start: int, now: int, sh: Shuffle)
    requires Shuffles(sh)
    ensures Playable(BackAndForth(a, b))
    ensures Loaded(BackAndForth(a, b), [], start, now, sh) == Midway(0, 0, 0, start, start)
  {
    var src := BackAndForth(a, b);
    var pb := CreatePlayback(src, [], start);
    assert |pb.kids| == 2;
    assert pb.kids[0] == CreatePlayback(src.kids[0], [] + [0], start);
    assert pb.kids[1] == CreatePlayback(src.kids[1], [] + [1], start);
    assert pb.kids == [LeafPb(true, 0, start), LeafPb(true, 0, start)];
    assert Plain(PINGPONG, 2) == [0, 1, 0];
    assert Reset(src, pb, now, sh) == ResetIndex(WithPos(pb, 0, 0), 2, sh);
  }

  /** It shows a, b, a the first time, and b, a from then on. */
  lemma BackAndForthForgets(a: Point, b: Point, start: int, now: int, clock: nat -> int, sh: Shuffle)
    requires Shuffles(sh)
    ensures Playable(BackAndForth(a, b))
    ensures Calls(BackAndForth(a, b), Loaded(BackAndForth(a, b), [], start, now, sh), clock, 0, 7, sh).0
         == [Some([a]), Some([b]), Some([a]), None, Some([b]), Some([a]), None]
  {
    hide Next, Match;
    var src := BackAndForth(a, b);
    MidwayFits(a, b, 0, 0, 0, start, start);
    var p0 := Loaded(src, [], start, now, sh);
    MidwayLoaded(a, b, start, now, sh);
    MidwayFirst(a, b, start, start, clock(0), sh);
    var p1 := Next(src, p0, clock(0), sh).1;
    MidwaySecond(a, b, start, start, clock(1), sh);
    var p2 := Next(src, p1, clock(1), sh).1;
    MidwayThird(a, b, start, clock(1), clock(2), sh);
    var p3 := Next(src, p2, clock(2), sh).1;
    MidwayEnds(a, b, clock(2), clock(1), clock(3), sh);
    var p4 := Next(src, p3, clock(3), sh).1;
    MidwaySecond(a, b, clock(2), clock(1), clock(4), sh);
    var p5 := Next(src, p4, clock(4), sh).1;
    MidwayThird(a, b, clock(2), clock(4), clock(5), sh);
    var p6 := Next(src, p5, clock(5), sh).1;
    MidwayEnds(a, b, clock(5), clock(4), clock(6), sh);
    assert Calls(src, p6, clock, 6, 1, sh).0 == [None];
    assert Calls(src, p5, clock, 5, 2, sh).0 == [Some([a]), None];
    assert Calls(src, p4, clock, 4, 3, sh).0 == [Some([b]), Some([a]), None];
    assert Calls(src, p3, clock, 3, 4, sh).0 == [None, Some([b]), Some([a]), None];
    assert Calls(src, p2, clock, 2, 5, sh).0 == [Some([a]), None, Some([b]), Some([a]), None];
    assert Calls(src, p1, clock, 1, 6, sh).0 == [Some([b]), Some([a]), None, Some([b]), Some([a]), None];
  }
}
