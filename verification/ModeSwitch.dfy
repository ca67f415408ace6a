/** What a sequencer shows when its play mode is changed while it plays. */
module ModeSwitch {
  import opened Wrappers
  import opened Sources
  import opened IndexTable
  import opened Playback
  import opened Traces
  import opened TraceTheorems

  function DrawsAfter(src: Source, pb: Pb): nat
    requires src.Sequencer? && pb.SeqPb?
  {
    if src.newMode == RANDOM then pb.draws + 1 else pb.draws
  }

  /** The children as the new mode needs them at entry i of its table: the others where a reset takes them to their
      start, and in order the first one at its start once it has been passed. */
  predicate KidsHeld(src: Source, pb: Pb, tbl: seq<nat>, i: nat)
    requires src.Sequencer? && Match(src, pb) && i < |tbl| && forall j | 0 <= j < |tbl| :: tbl[j] < |src.kids|
  {
    (forall j | 0 <= j < |src.kids| && j != tbl[i] :: Primed(src.kids[j], pb.kids[j]))
    && (src.newMode == SEQUENTIAL && i > 0 ==> AtStart(src.kids[0], pb.kids[0]))
  }

  /** The first call after the change goes on as from the same position of the new table, with nothing else changed. */
  lemma Switched(src: Source, pb: Pb, sh: Shuffle, now: int) returns (q: Pb)
    requires src.Sequencer? && |src.kids| >= 1 && Match(src, pb) && Shuffles(sh) && pb.mode != src.newMode
    ensures q == SeqPb(src.newMode, pb.pos, pb.passes, TableAt(src, pb.who, pb.draws, sh), pb.who, DrawsAfter(src, pb),
                       pb.kids)
    ensures Match(src, q) && TableOf(src, q.tbl) && q.tbl != [] && Next(src, pb, now, sh) == Next(src, q, now, sh)
  {
    var switched := SeqPb(src.newMode, pb.pos, pb.passes, pb.tbl, pb.who, pb.draws, pb.kids);
    ResetIndexFits(switched, |src.kids|, sh);
    q := ResetIndex(switched, |src.kids|, sh);
    assert Next(src, pb, now, sh) == Loop(src, q, now, sh) == Next(src, q, now, sh);
  }

  /** In the middle of a pass: the rest of the child at this entry of the new table, which is not reset, then the new
      table from the next entry on, then the passes left. */
  lemma SwitchGives(src: Source, pb: Pb, rest: Frames, sh: Shuffle)
    requires Match(src, pb) && Shuffles(sh) && Orderly(src) && pb.mode != src.newMode
    requires pb.pos < |TableAt(src, pb.who, pb.draws, sh)| - 1
    requires KidsHeld(src, pb, TableAt(src, pb.who, pb.draws, sh), pb.pos)
    requires var k := TableAt(src, pb.who, pb.draws, sh)[pb.pos]; Gives(src.kids[k], pb.kids[k], rest, sh)
    ensures Gives(src, pb, rest + (Pass(src, TableAt(src, pb.who, pb.draws, sh), pb.pos + 1)
                                   + Passes(src, pb.who, DrawsAfter(src, pb), PassesLeft(src, pb), sh)), sh)
  {
    hide Next, Pass, Passes, Primed, AtStart, FramesOf, Tame, Resettable;
    var tbl := TableAt(src, pb.who, pb.draws, sh);
    var fs := rest + (Pass(src, tbl, pb.pos + 1) + Passes(src, pb.who, DrawsAfter(src, pb), PassesLeft(src, pb), sh));
    forall now: int
      ensures GivesNow(src, pb, fs, sh, now)
    {
      var q := Switched(src, pb, sh, now);
      SeqGivesNow(src, q, tbl, pb.pos, rest, sh, now);
    }
    assert Gives(src, pb, fs, sh);
  }

  /** At or past the end of the new table: a new pass with every child reset, over a table of its own; or, with no pass
      left, null, and a reset. */
  lemma SwitchPastEnd(src: Source, pb: Pb, sh: Shuffle)
    requires Match(src, pb) && Shuffles(sh) && Orderly(src) && pb.mode != src.newMode
    requires pb.pos >= |TableAt(src, pb.who, pb.draws, sh)| - 1
    requires forall j | 0 <= j < |src.kids| :: Primed(src.kids[j], pb.kids[j])
    ensures pb.passes < src.repeats ==>
              Gives(src, pb, Passes(src, pb.who, DrawsAfter(src, pb), PassesLeft(src, pb), sh), sh)
    ensures pb.passes >= src.repeats ==>
              forall now: int ::
                Next(src, pb, now, sh).0 == None && Next(src, pb, now, sh).1.SeqPb?
                && Next(src, pb, now, sh).1.pos == 0 && Next(src, pb, now, sh).1.passes == 0
                && Next(src, pb, now, sh).1.mode == src.newMode && Next(src, pb, now, sh).1.kids == pb.kids
  {
    forall now: int
      ensures pb.passes < src.repeats ==>
                GivesNow(src, pb, Passes(src, pb.who, DrawsAfter(src, pb), PassesLeft(src, pb), sh), sh, now)
      ensures pb.passes >= src.repeats ==>
                Next(src, pb, now, sh).0 == None && Next(src, pb, now, sh).1.SeqPb?
                && Next(src, pb, now, sh).1.pos == 0 && Next(src, pb, now, sh).1.passes == 0
                && Next(src, pb, now, sh).1.mode == src.newMode && Next(src, pb, now, sh).1.kids == pb.kids
    {
      var q := Switched(src, pb, sh, now);
      PastEnd(src, q, sh, now);
    }
    if pb.passes < src.repeats {
      assert Gives(src, pb, Passes(src, pb.who, DrawsAfter(src, pb), PassesLeft(src, pb), sh), sh);
    }
  }

  lemma PastEnd(src: Source, q: Pb, sh: Shuffle, now: int)
    requires Match(src, q) && Shuffles(sh) && Orderly(src) && q.mode == src.newMode
    requires TableOf(src, q.tbl) && q.tbl != []
    requires q.pos >= |q.tbl| - 1 && forall j | 0 <= j < |src.kids| :: Primed(src.kids[j], q.kids[j])
    ensures q.passes >= src.repeats ==> Next(src, q, now, sh) == (None, Playback.Reset(src, q, now, sh))
    ensures q.passes < src.repeats ==> GivesNow(src, q, Passes(src, q.who, q.draws, PassesLeft(src, q), sh), sh, now)
  {
    if q.passes < src.repeats {
      hide Next, FramesOf, TableAt, AtStart, Primed, Tame, Pass, Passes;
      var r := PastEndStarts(src, q, sh, now);
      var k := r.tbl[0];
      OrderlyKids(src, r.tbl);
      TameGives(src.kids[k], r.kids[k], sh);
      SeqGivesNow(src, r, r.tbl, 0, FramesOf(src.kids[k]), sh, now);
      LeftAfterNewPass(src, q, r, sh);
    }
  }

  lemma PastEndStarts(src: Source, q: Pb, sh: Shuffle, now: int) returns (r: Pb)
    requires Match(src, q) && Shuffles(sh) && Orderly(src) && q.mode == src.newMode
    requires TableOf(src, q.tbl) && q.tbl != []
    requires q.pos >= |q.tbl| - 1 && q.passes < src.repeats
    requires forall j | 0 <= j < |src.kids| :: Primed(src.kids[j], q.kids[j])
    ensures r == NewPass(src, q, now, sh) && Match(src, r) && r.tbl == TableAt(src, q.who, q.draws, sh)
    ensures Holding(src, r, r.tbl, 0) && AtStart(src.kids[r.tbl[0]], r.kids[r.tbl[0]])
    ensures r.passes == q.passes + 1 && r.who == q.who
    ensures r.draws == if src.newMode == RANDOM then q.draws + 1 else q.draws
    ensures Next(src, q, now, sh) == Next(src, r, now, sh)
  {
    OrderlyKids(src, q.tbl);
    r := NewPass(src, q, now, sh);
    forall j | 0 <= j < |src.kids|
      ensures AtStart(src.kids[j], r.kids[j]) && Primed(src.kids[j], r.kids[j])
    {
      ResetStarts(src.kids[j], q.kids[j], now, sh);
      StartIsPrimed(src.kids[j], r.kids[j]);
    }
    assert Next(src, q, now, sh) == Loop(src, q, now, sh) == Pull(src, r, now, sh);
    assert Next(src, r, now, sh) == Loop(src, r, now, sh) == Pull(src, r, now, sh);
  }

  // One at work

  /** Three points in order, each for one frame; the second one has just been shown when the mode is set to go back and
      forth: then the third is next, and the second and the first once more. */
  lemma SwitchToPingpong(a: Point, b: Point, c: Point, s: int, t: int, u: int, sh: Shuffle)
    requires Shuffles(sh)
    ensures var kids := [Static("", [a], false, 0, 1), Static("", [b], false, 0, 1), Static("", [c], false, 0, 1)];
            var src := Sequencer("", SEQUENTIAL, PINGPONG, 0, kids);
            var pb := SeqPb(SEQUENTIAL, 1, 0, [0, 1, 2], [], 0,
                            [LeafPb(true, 0, s), LeafPb(true, 1, t), LeafPb(true, 0, u)]);
            Match(src, pb) && Gives(src, pb, [[c], [b], [a]], sh)
  {
    hide Gives, Orderly;
    var k1, k2, k3 := Static("", [a], false, 0, 1), Static("", [b], false, 0, 1), Static("", [c], false, 0, 1);
    var src := Sequencer("", SEQUENTIAL, PINGPONG, 0, [k1, k2, k3]);
    var pb := SeqPb(SEQUENTIAL, 1, 0, [0, 1, 2], [], 0,
                    [LeafPb(true, 0, s), LeafPb(true, 1, t), LeafPb(true, 0, u)]);
    var tbl := TableAt(src, pb.who, pb.draws, sh);
    assert tbl == [0, 1, 2, 1, 0];
    FlatIsReady(src);
    OneFrame(k1);
    OneFrame(k2);
    OneFrame(k3);
    LeafGives(k2, pb.kids[1], sh);
    assert Pass(src, tbl, 4) == [[a]];
    assert Pass(src, tbl, 3) == [[b], [a]];
    assert Pass(src, tbl, 2) == [[c], [b], [a]];
    SwitchGives(src, pb, [], sh);
    assert [] + (Pass(src, tbl, 2) + []) == [[c], [b], [a]];
  }

  lemma OneFrame(src: Source)
    requires src.Static? && src.repeats == 1
    ensures FramesOf(src) == [src.data]
  {
    assert Times([src.data], 1) == [src.data] + Times([src.data], 0);
  }
}
