/** What the description of a sequencer promises: all frames of each entry of each pass; and when a loaded sequencer
    keeps that promise. */
module Promise {
  import opened Sources
  import opened IndexTable
  import opened Playback
  import opened Traces
  import opened TraceTheorems

  // The promised lists

  /** The pass that the description of the sequencer promises: all frames of every entry. */
  function WholePass(src: Source, tbl: seq<nat>, i: nat): Frames
    requires src.Sequencer? && i < |tbl| && forall j | 0 <= j < |tbl| :: tbl[j] < |src.kids|
    decreases |tbl| - i
  {
    FramesOf(src.kids[tbl[i]]) + if i == |tbl| - 1 then [] else WholePass(src, tbl, i + 1)
  }

  function WholePasses(src: Source, who: seq<nat>, draws: nat, k: nat, sh: Shuffle): Frames
    requires src.Sequencer? && |src.kids| >= 1 && Shuffles(sh)
    decreases k
  {
    if k == 0 then []
    else WholePass(src, TableAt(src, who, draws, sh), 0)
         + WholePasses(src, who, if src.newMode == RANDOM then draws + 1 else draws, k - 1, sh)
  }

  /** The last entry of each of the next k passes has one frame at most. */
  predicate ShortEnds(src: Source, who: seq<nat>, draws: nat, k: nat, sh: Shuffle)
    requires src.Sequencer? && |src.kids| >= 1 && Shuffles(sh)
    decreases k
  {
    k == 0
    || (var tbl := TableAt(src, who, draws, sh);
        tbl != [] && |FramesOf(src.kids[tbl[|tbl| - 1]])| <= 1
        && ShortEnds(src, who, if src.newMode == RANDOM then draws + 1 else draws, k - 1, sh))
  }

  /** A pass is the plain concatenation of its entries exactly when its last entry has one frame at most. */
  lemma {:induction false} PassIsWhole(src: Source, tbl: seq<nat>, i: nat)
    requires src.Sequencer? && i < |tbl| && forall j | 0 <= j < |tbl| :: tbl[j] < |src.kids|
    ensures |Pass(src, tbl, i)| <= |WholePass(src, tbl, i)|
    ensures Pass(src, tbl, i) == WholePass(src, tbl, i) <==> |FramesOf(src.kids[tbl[|tbl| - 1]])| <= 1
    decreases |tbl| - i
  {
    hide FramesOf;
    var list := FramesOf(src.kids[tbl[i]]);
    if i == |tbl| - 1 {
      assert list + [] == list;
    } else {
      PassIsWhole(src, tbl, i + 1);
      SameTail(list, Pass(src, tbl, i + 1), WholePass(src, tbl, i + 1));
    }
  }

  lemma {:induction false} PassesAreWhole(src: Source, who: seq<nat>, draws: nat, k: nat, sh: Shuffle)
    requires src.Sequencer? && |src.kids| >= 1 && Shuffles(sh)
    ensures |Passes(src, who, draws, k, sh)| <= |WholePasses(src, who, draws, k, sh)|
    ensures Passes(src, who, draws, k, sh) == WholePasses(src, who, draws, k, sh) <==> ShortEnds(src, who, draws, k, sh)
    decreases k
  {
    hide FramesOf, TableAt, Pass, WholePass;
    if k > 0 {
      var next := if src.newMode == RANDOM then draws + 1 else draws;
      var tbl := TableAt(src, who, draws, sh);
      PassIsWhole(src, tbl, 0);
      PassesAreWhole(src, who, next, k - 1, sh);
      SameParts(Pass(src, tbl, 0), WholePass(src, tbl, 0),
                Passes(src, who, next, k - 1, sh), WholePasses(src, who, next, k - 1, sh));
    }
  }

  lemma SameParts<T>(a: seq<T>, b: seq<T>, c: seq<T>, d: seq<T>)
    requires |a| <= |b| && |c| <= |d|
    ensures a + c == b + d <==> a == b && c == d
  {
    if a + c == b + d {
      assert a == (a + c)[..|a|] && b == (b + d)[..|b|] && c == (a + c)[|a|..] && d == (b + d)[|b|..];
    }
  }

  lemma SameTail<T>(a: seq<T>, b: seq<T>, c: seq<T>)
    ensures a + b == a + c <==> b == c
  {
    if a + b == a + c {
      assert (a + b)[|a|..] == b && (a + c)[|a|..] == c;
    }
  }

  // The lists that are shown

  lemma LoadedSingle(src: Source, who: seq<nat>, start: int, now: int, sh: Shuffle)
    requires Playable(src) && Shuffles(sh) && src.Sequencer? && |src.kids| == 1 && Tame(src)
    ensures Gives(src, Loaded(src, who, start, now, sh), Times(First(FramesOf(src.kids[0])), src.repeats), sh)
  {
    hide Next, FramesOf, Gives;
    ResetIndexFits(WithPos(CreatePlayback(src, who, start), 0, 0), 1, sh);
    SingleGives(src, Loaded(src, who, start, now, sh), sh);
  }

  lemma {:induction false} WholeSingle(src: Source, who: seq<nat>, draws: nat, k: nat, sh: Shuffle)
    requires src.Sequencer? && |src.kids| == 1 && Shuffles(sh)
    ensures WholePasses(src, who, draws, k, sh) == Times(FramesOf(src.kids[0]), k)
    decreases k
  {
    hide FramesOf;
    if k > 0 {
      assert TableAt(src, who, draws, sh) == [0];
      assert WholePass(src, [0], 0) == FramesOf(src.kids[0]);
      WholeSingle(src, who, if src.newMode == RANDOM then draws + 1 else draws, k - 1, sh);
    }
  }

  lemma {:induction false} FallsShort(list: Frames, k: nat)
    ensures |Times(First(list), k)| <= |Times(list, k)|
    ensures Times(list, k + 1) == Times(First(list), k) <==> list == []
    decreases k
  {
    if k > 0 { FallsShort(list, k - 1); }
    TimesNothing(k);
  }

  /** For one way to shuffle: the promise is kept if and only if the last entry of every pass has one frame at most, and
      with one child if and only if that child has no frame. */
  lemma ShowsPasses(src: Source, who: seq<nat>, start: int, now: int, sh: Shuffle)
    requires Playable(src) && Shuffles(sh) && src.Sequencer?
    requires if |src.kids| == 1 then Tame(src) else Ready(src)
    ensures Gives(src, Loaded(src, who, start, now, sh), WholePasses(src, who, 0, src.repeats + 1, sh), sh)
       <==> if |src.kids| == 1 then FramesOf(src.kids[0]) == [] else ShortEnds(src, who, 0, src.repeats + 1, sh)
  {
    hide Next, Loaded, FramesOf, Passes, WholePasses, ShortEnds, Gives;
    var pb := Loaded(src, who, start, now, sh);
    var promised := WholePasses(src, who, 0, src.repeats + 1, sh);
    var shown: Frames;
    if |src.kids| == 1 {
      LoadedSingle(src, who, start, now, sh);
      shown := Times(First(FramesOf(src.kids[0])), src.repeats);
      WholeSingle(src, who, 0, src.repeats + 1, sh);
      FallsShort(FramesOf(src.kids[0]), src.repeats);
    } else {
      SequencerGives(src, who, start, now, sh);
      shown := Passes(src, who, 0, src.repeats + 1, sh);
      PassesAreWhole(src, who, 0, src.repeats + 1, sh);
    }
    if Gives(src, pb, promised, sh) { GivesOne(src, pb, shown, promised, sh); }
  }

  // The condition on the children, mode by mode

  /** Playing in order the last child, back and forth the first one, has one frame at most; one child alone has none. */
  predicate ShortLast(src: Source)
    requires src.Sequencer? && |src.kids| >= 1
  {
    if |src.kids| == 1 then FramesOf(src.kids[0]) == []
    else if src.newMode == PINGPONG then |FramesOf(src.kids[0])| <= 1
    else |FramesOf(src.kids[|src.kids| - 1])| <= 1
  }

  lemma {:induction false} PlainEnds(src: Source, who: seq<nat>, draws: nat, k: nat, sh: Shuffle)
    requires src.Sequencer? && |src.kids| >= 2 && src.newMode != RANDOM && Shuffles(sh)
    ensures ShortEnds(src, who, draws, k, sh) <==> k == 0 || ShortLast(src)
    decreases k
  {
    hide FramesOf;
    if k > 0 { PlainEnds(src, who, draws, k - 1, sh); }
  }

  /** A loaded sequencer that does not shuffle keeps the promise if and only if that holds. */
  lemma KeepsPromise(src: Source, who: seq<nat>, start: int, now: int, sh: Shuffle)
    requires Playable(src) && Shuffles(sh) && src.Sequencer?
    requires if |src.kids| == 1 then Tame(src) else Ready(src) && src.newMode != RANDOM
    ensures Gives(src, Loaded(src, who, start, now, sh), WholePasses(src, who, 0, src.repeats + 1, sh), sh)
       <==> ShortLast(src)
  {
    hide Gives, FramesOf, Loaded, WholePasses, ShortEnds, Tame, Ready;
    ShowsPasses(src, who, start, now, sh);
    if |src.kids| >= 2 { PlainEnds(src, who, 0, src.repeats + 1, sh); }
  }

  // Shuffling

  function Moved(n: nat, last: nat): seq<nat>
    requires last < n
  {
    Iota(n)[..last] + Iota(n)[last + 1..] + [last]
  }

  /** The shuffle that leaves all children in order but one, which it puts last. */
  function PutsLast(m: nat, last: nat): Shuffle
    requires last < m
  {
    (who: seq<nat>, draw: nat, n: nat) => if n == m then Moved(n, last) else Iota(n)
  }

  lemma PutsLastShuffles(m: nat, last: nat)
    requires last < m
    ensures Shuffles(PutsLast(m, last))
  {
    forall who: seq<nat>, draw: nat, n: nat
      ensures IsPermutation(PutsLast(m, last)(who, draw, n), n)
    {
      if n == m {
        assert Iota(n) == Iota(n)[..last] + [last] + Iota(n)[last + 1..];
      }
    }
  }

  lemma {:induction false} ShortKidsEnd(src: Source, who: seq<nat>, draws: nat, k: nat, sh: Shuffle)
    requires src.Sequencer? && |src.kids| >= 1 && Shuffles(sh)
    requires forall kid | kid in src.kids :: |FramesOf(kid)| <= 1
    ensures ShortEnds(src, who, draws, k, sh)
    decreases k
  {
    hide FramesOf;
    if k > 0 {
      var tbl := TableAt(src, who, draws, sh);
      assert tbl != [] && src.kids[tbl[|tbl| - 1]] in src.kids;
      ShortKidsEnd(src, who, if src.newMode == RANDOM then draws + 1 else draws, k - 1, sh);
    }
  }

  /** A loaded sequencer that shuffles keeps the promise however it is shuffled if and only if every child has one frame
      at most. */
  lemma KeepsPromiseShuffled(src: Source, who: seq<nat>, start: int, now: int)
    requires Playable(src) && Ready(src) && src.newMode == RANDOM
    ensures (forall sh: Shuffle | Shuffles(sh) ::
               Gives(src, Loaded(src, who, start, now, sh), WholePasses(src, who, 0, src.repeats + 1, sh), sh))
       <==> forall kid | kid in src.kids :: |FramesOf(kid)| <= 1
  {
    hide Gives, FramesOf, Loaded, WholePasses, ShortEnds, Tame;
    if forall kid | kid in src.kids :: |FramesOf(kid)| <= 1 {
      forall sh: Shuffle | Shuffles(sh)
        ensures Gives(src, Loaded(src, who, start, now, sh), WholePasses(src, who, 0, src.repeats + 1, sh), sh)
      {
        ShortKidsEnd(src, who, 0, src.repeats + 1, sh);
        ShowsPasses(src, who, start, now, sh);
      }
    } else {
      var last :| 0 <= last < |src.kids| && |FramesOf(src.kids[last])| > 1;
      var sh := PutsLast(|src.kids|, last);
      PutsLastShuffles(|src.kids|, last);
      ShowsPasses(src, who, start, now, sh);
      LongLast(src, who, last);
      assert !Gives(src, Loaded(src, who, start, now, sh), WholePasses(src, who, 0, src.repeats + 1, sh), sh);
    }
  }

  lemma LongLast(src: Source, who: seq<nat>, last: nat)
    requires src.Sequencer? && last < |src.kids| && src.newMode == RANDOM && |FramesOf(src.kids[last])| > 1
    requires Shuffles(PutsLast(|src.kids|, last))
    ensures !ShortEnds(src, who, 0, src.repeats + 1, PutsLast(|src.kids|, last))
  {
    hide FramesOf;
    var tbl := TableAt(src, who, 0, PutsLast(|src.kids|, last));
    assert tbl == Moved(|src.kids|, last) && tbl[|tbl| - 1] == last;
  }

  // One that does not

  lemma TwoTimes(f: Frame)
    ensures Times([f], 2) == [f, f]
  {
    assert Times([f], 0) == [] && Times([f], 1) == [f];
  }

  /** Two points in order, each for two frames: a, a, b is shown, and a, a, b, b promised. */
  lemma LastCutShort(a: Point, b: Point, who: seq<nat>, start: int, now: int, sh: Shuffle)
    requires Shuffles(sh)
    ensures var src := Sequencer("", SEQUENTIAL, SEQUENTIAL, 0,
                                 [Static("", [a], false, 0, 2), Static("", [b], false, 0, 2)]);
            Playable(src) && Gives(src, Loaded(src, who, start, now, sh), [[a], [a], [b]], sh)
            && WholePasses(src, who, 0, 1, sh) == [[a], [a], [b], [b]]
  {
    hide Gives, Loaded;
    var kid1, kid2 := Static("", [a], false, 0, 2), Static("", [b], false, 0, 2);
    var src := Sequencer("", SEQUENTIAL, SEQUENTIAL, 0, [kid1, kid2]);
    FlatIsReady(src);
    SequencerGives(src, who, start, now, sh);
    TwoTimes([a]);
    TwoTimes([b]);
    assert FramesOf(kid1) == [[a], [a]] && FramesOf(kid2) == [[b], [b]];
    var tbl := TableAt(src, who, 0, sh);
    assert tbl == [0, 1];
    assert Pass(src, tbl, 1) == [[b]] && WholePass(src, tbl, 1) == [[b], [b]];
    assert Pass(src, tbl, 0) == [[a], [a], [b]] && WholePass(src, tbl, 0) == [[a], [a], [b], [b]];
    assert Passes(src, who, 0, 1, sh) == Pass(src, tbl, 0) + Passes(src, who, 0, 0, sh);
    assert WholePasses(src, who, 0, 1, sh) == WholePass(src, tbl, 0) + WholePasses(src, who, 0, 0, sh);
    assert Passes(src, who, 0, 1, sh) == [[a], [a], [b]];
  }
}
