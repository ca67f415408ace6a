/** Playing a frame source tree: what one call of nextFrame returns and how it changes the playback. A frame is
    the point list of the leaf it comes from, before any recolouring on the way up. */
module Playback {
  import opened Wrappers
  import opened Sources
  import opened IndexTable

  type Frame = seq<Point>

  /** The playback of one node. A sequencer's current mode is kept here: each source has one playback. */
  datatype Pb =
    | LeafPb(active: bool, shown: nat, start: int)
    | SeqPb(mode: U32, pos: nat, passes: nat, tbl: seq<nat>, who: seq<nat>, draws: nat, kids: seq<Pb>)
    | RotPb(kids: seq<Pb>)

  /** What the program can play: sequencers have a child, rotators at most one. */
  predicate Playable(src: Source) {
    match src
    case Static(_, _, _, _, _) => true
    case Sequencer(_, _, _, _, kids) => |kids| >= 1 && forall k | k in kids :: Playable(k)
    case Rotator(_, _, kids) => |kids| <= 1 && forall k | k in kids :: Playable(k)
  }

  /** The index table is either still empty, in a new playback, or has one entry per step, each of them a child. */
  predicate TableFits(mode: U32, pos: nat, tbl: seq<nat>, n: nat) {
    if tbl == [] then pos == 0 else |tbl| == TableSize(mode, n) && forall i | 0 <= i < |tbl| :: tbl[i] < n
  }

  /** The playback has the shape of the source and its tables fit. The position may be anything: the mode may
      have been switched. Neither the repeats nor the mode asked for matter. */
  predicate Match(src: Source, pb: Pb) {
    match src
    case Static(_, _, _, _, _) => pb.LeafPb? && pb.active
    case Sequencer(_, _, _, _, kids) =>
      pb.SeqPb? && |kids| == |pb.kids| >= 1 && TableFits(pb.mode, pb.pos, pb.tbl, |kids|)
      && forall i | 0 <= i < |kids| :: Match(kids[i], pb.kids[i])
    case Rotator(_, _, kids) =>
      pb.RotPb? && |kids| == |pb.kids| <= 1 && forall i | 0 <= i < |kids| :: Match(kids[i], pb.kids[i])
  }

  /** createPlayback: a new playback of the source's shape. */
  function CreatePlayback(src: Source, who: seq<nat>, start: int): (pb: Pb)
    ensures Playable(src) ==> Match(src, pb)
  {
    match src
    case Static(_, _, _, _, _) => LeafPb(true, 0, start)
    case Sequencer(_, mode, _, _, kids) =>
      SeqPb(mode, 0, 0, [], who, 0,
            seq(|kids|, i requires 0 <= i < |kids| => CreatePlayback(kids[i], who + [i], start)))
    case Rotator(_, _, kids) =>
      RotPb(seq(|kids|, i requires 0 <= i < |kids| => CreatePlayback(kids[i], who + [i], start)))
  }

  // Sequencer tables

  function ResetIndex(pb: Pb, n: nat, sh: Shuffle): (r: Pb)
    requires pb.SeqPb? && n >= 1
    ensures r.SeqPb? && r.mode == pb.mode && r.pos == pb.pos && r.passes == pb.passes && r.kids == pb.kids
    ensures r.who == pb.who
  {
    if pb.mode == RANDOM
    then SeqPb(pb.mode, pb.pos, pb.passes, sh(pb.who, pb.draws, n), pb.who, pb.draws + 1, pb.kids)
    else SeqPb(pb.mode, pb.pos, pb.passes, Plain(pb.mode, n), pb.who, pb.draws, pb.kids)
  }

  lemma ResetIndexFits(pb: Pb, n: nat, sh: Shuffle)
    requires pb.SeqPb? && n >= 1 && Shuffles(sh)
    ensures var r := ResetIndex(pb, n, sh); r.tbl != [] && TableFits(r.mode, r.pos, r.tbl, n)
  {
    if pb.mode == RANDOM {
      PermutationFits(sh(pb.who, pb.draws, n), n);
    }
  }

  /** The refill that FrameSequencer::index does when the table has the wrong size. */
  function Refilled(pb: Pb, n: nat, sh: Shuffle): Pb
    requires pb.SeqPb? && n >= 1
  {
    if |pb.tbl| != TableSize(pb.mode, n) then ResetIndex(pb, n, sh) else pb
  }

  /** The end test: size minus one wraps round for an empty table, which is never at its end. */
  predicate AtEnd(pb: Pb)
    requires pb.SeqPb?
  {
    pb.tbl != [] && pb.pos >= |pb.tbl| - 1
  }

  function WithKid(pb: Pb, i: nat, kid: Pb): Pb
    requires pb.SeqPb? && i < |pb.kids|
  {
    SeqPb(pb.mode, pb.pos, pb.passes, pb.tbl, pb.who, pb.draws, pb.kids[i := kid])
  }

  function WithPos(pb: Pb, pos: nat, passes: nat): Pb
    requires pb.SeqPb?
  {
    SeqPb(pb.mode, pos, passes, pb.tbl, pb.who, pb.draws, pb.kids)
  }

  // Resetting and pulling

  function Reset(src: Source, pb: Pb, now: int, sh: Shuffle): (r: Pb)
    requires Match(src, pb) && Shuffles(sh)
    ensures Match(src, r)
  {
    match src
    case Static(_, _, _, _, _) => LeafPb(true, 0, now)
    case Sequencer(_, _, _, _, kids) =>
      ResetIndexFits(WithPos(pb, 0, 0), |kids|, sh);
      ResetIndex(WithPos(pb, 0, 0), |kids|, sh)
    case Rotator(_, _, kids) =>
      if |kids| == 1 then RotPb([Reset(kids[0], pb.kids[0], now, sh)]) else pb
  }

  function ResetKids(kids: seq<Source>, pbs: seq<Pb>, now: int, sh: Shuffle): (r: seq<Pb>)
    requires |kids| == |pbs| && Shuffles(sh) && forall i | 0 <= i < |kids| :: Match(kids[i], pbs[i])
    ensures |r| == |kids|
    ensures forall i | 0 <= i < |kids| :: Match(kids[i], r[i]) && r[i] == Reset(kids[i], pbs[i], now, sh)
  {
    seq(|kids|, i requires 0 <= i < |kids| => Reset(kids[i], pbs[i], now, sh))
  }

  /** A dwell time is an unsigned number compared as a signed one. */
  function SignedDwell(dwell: U32): int {
    if dwell < 0x8000_0000 then dwell else dwell - 0x1_0000_0000
  }

  function LeafNext(useDwell: bool, dwell: U32, repeats: nat, data: Frame, pb: Pb, now: int): (Option<Frame>, Pb)
    requires pb.LeafPb? && pb.active
  {
    var over := if useDwell then now - pb.start > SignedDwell(dwell) else pb.shown >= repeats;
    var start := if useDwell && over then now else pb.start;
    if over then (None, LeafPb(true, 0, start))
    else (Some(data), LeafPb(true, if useDwell then pb.shown else pb.shown + 1, start))
  }

  /** One call of nextFrame. */
  function Next(src: Source, pb: Pb, now: int, sh: Shuffle): (r: (Option<Frame>, Pb))
    requires Match(src, pb) && Shuffles(sh)
    ensures Match(src, r.1)
    decreases src, 1, 0, 0, 0
  {
    match src
    case Static(_, data, useDwell, dwell, repeats) => LeafNext(useDwell, dwell, repeats, data, pb, now)
    case Sequencer(_, _, newMode, _, kids) =>
      var switched := SeqPb(newMode, pb.pos, pb.passes, pb.tbl, pb.who, pb.draws, pb.kids);
      ResetIndexFits(switched, |kids|, sh);
      Loop(src, if pb.mode != newMode then ResetIndex(switched, |kids|, sh) else pb, now, sh)
    case Rotator(_, _, kids) =>
      if |kids| == 0 then (None, pb)
      else
        var (f, kid) := Next(kids[0], pb.kids[0], now, sh);
        (f, RotPb([if f.None? then Reset(kids[0], kid, now, sh) else kid]))
  }

  function PassesLeft(src: Source, pb: Pb): nat
    requires src.Sequencer? && pb.SeqPb?
  {
    if pb.passes < src.repeats then src.repeats - pb.passes else 0
  }

  function StepsLeft(src: Source, pb: Pb): nat
    requires src.Sequencer? && pb.SeqPb?
  {
    if AtEnd(pb) then 0
    else if pb.tbl == [] then (if TableSize(pb.mode, |src.kids|) >= 0 then TableSize(pb.mode, |src.kids|) + 1 else 1)
    else |pb.tbl| - pb.pos
  }

  /** The top of the outer loop: the end test, then one pull. */
  function Loop(src: Source, pb: Pb, now: int, sh: Shuffle): (r: (Option<Frame>, Pb))
    requires src.Sequencer? && Match(src, pb) && Shuffles(sh)
    ensures Match(src, r.1)
    decreases src, 0, PassesLeft(src, pb), StepsLeft(src, pb), 3
  {
    if AtEnd(pb) then
      if pb.passes >= src.repeats then (None, Reset(src, pb, now, sh))
      else Pull(src, NewPass(src, pb, now, sh), now, sh)
    else Pull(src, pb, now, sh)
  }

  /** Starting over: one more pass done, a new table, and every child reset. */
  function NewPass(src: Source, pb: Pb, now: int, sh: Shuffle): (r: Pb)
    requires src.Sequencer? && Match(src, pb) && Shuffles(sh)
    ensures Match(src, r) && r.passes == pb.passes + 1 && r.pos == 0 && r.tbl != [] && r.mode == pb.mode
  {
    var again := ResetIndex(WithPos(pb, 0, pb.passes + 1), |src.kids|, sh);
    ResetIndexFits(WithPos(pb, 0, pb.passes + 1), |src.kids|, sh);
    SeqPb(again.mode, again.pos, again.passes, again.tbl, again.who, again.draws,
          ResetKids(src.kids, again.kids, now, sh))
  }

  /** A frame from the child at the current position, or go on to the next positions. */
  function Pull(src: Source, pb: Pb, now: int, sh: Shuffle): (r: (Option<Frame>, Pb))
    requires src.Sequencer? && Match(src, pb) && Shuffles(sh)
    requires pb.tbl == [] || pb.pos < |pb.tbl|
    ensures Match(src, r.1)
    decreases src, 0, PassesLeft(src, pb), if AtEnd(pb) then 1 else StepsLeft(src, pb), 2
  {
    ResetIndexFits(pb, |src.kids|, sh);
    var q := Refilled(pb, |src.kids|, sh);
    var i := q.tbl[q.pos];
    var (f, kid) := Next(src.kids[i], q.kids[i], now, sh);
    if f.Some? then (f, WithKid(q, i, kid)) else Advance(src, WithKid(q, i, kid), now, sh)
  }

  /** The inner loop: reset the next child and pull from it, until one gives a frame or the table ends. */
  function Advance(src: Source, pb: Pb, now: int, sh: Shuffle): (r: (Option<Frame>, Pb))
    requires src.Sequencer? && Match(src, pb) && Shuffles(sh) && pb.pos < |pb.tbl|
    ensures Match(src, r.1)
    decreases src, 0, PassesLeft(src, pb), |pb.tbl| - pb.pos, 1
  {
    if pb.pos < |pb.tbl| - 1 then
      var q := Step(src, pb, now, sh);
      var i := q.tbl[q.pos];
      var (f, kid) := Next(src.kids[i], q.kids[i], now, sh);
      if f.Some? then (f, WithKid(q, i, kid)) else Advance(src, WithKid(q, i, kid), now, sh)
    else Loop(src, pb, now, sh)
  }

  /** One position further, with the child there reset just before it is pulled from. */
  function Step(src: Source, pb: Pb, now: int, sh: Shuffle): (r: Pb)
    requires src.Sequencer? && Match(src, pb) && Shuffles(sh) && pb.pos + 1 < |pb.tbl|
    ensures Match(src, r) && r.pos == pb.pos + 1 && r.tbl == pb.tbl && r.passes == pb.passes
  {
    var i := pb.tbl[pb.pos + 1];
    WithKid(WithPos(pb, pb.pos + 1, pb.passes), i, Reset(src.kids[i], pb.kids[i], now, sh))
  }
}
