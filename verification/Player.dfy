/** The playback objects themselves: a tree of mutable nodes whose nextFrame and reset change them in place.
    Each node carries its abstract value, and every call is proved to do to it what Playback.Next and Playback.Reset
    say. */
module Player {
  import opened Wrappers
  import opened Sources
  import opened IndexTable
  import opened Playback

  datatype Kind = Leaf | Seq | Rot

  ghost function Views(kids: seq<Node>): (r: seq<Pb>)
    reads kids
    ensures |r| == |kids| && forall i | 0 <= i < |kids| :: r[i] == kids[i].view
  {
    seq(|kids|, i requires 0 <= i < |kids| reads kids => kids[i].view)
  }

  class Node {
    const kind: Kind
    const who: seq<nat>
    const kids: seq<Node>
    // static frame
    var active: bool
    var shown: nat
    var start: int
    // sequencer
    var mode: U32
    var pos: nat
    var passes: nat
    var tbl: seq<nat>
    var draws: nat

    ghost var view: Pb
    ghost const Repr: set<object>

    /** The node's own fields agree with its abstract value. */
    ghost predicate OwnView()
      reads this
    {
      match kind
      case Leaf => kids == [] && view == LeafPb(active, shown, start)
      case Seq => view.SeqPb? && view == SeqPb(mode, pos, passes, tbl, who, draws, view.kids) && |view.kids| == |kids|
      case Rot => view.RotPb? && |view.kids| == |kids|
    }

    /** The children's values, wherever there are children. */
    ghost predicate KidView(i: nat)
      requires i < |kids|
      reads this, kids[i]
    {
      !view.LeafPb? && i < |view.kids| && view.kids[i] == kids[i].view
    }

    ghost predicate Valid()
      reads this, Repr
      decreases Repr
    {
      this in Repr && OwnView()
      && (forall i | 0 <= i < |kids| ::
            kids[i] in Repr && kids[i].Repr < Repr && this !in kids[i].Repr && kids[i].Valid() && KidView(i))
      && (forall i, j | 0 <= i < j < |kids| :: kids[i].Repr !! kids[j].Repr)
    }

    /** A new node over its children's playbacks: newPlayback and Playback_impl::addChild. */
    constructor (kind: Kind, who: seq<nat>, mode: U32, start: int, kids: seq<Node>, ghost under: set<object>)
      requires kind.Leaf? ==> kids == []
      requires forall i | 0 <= i < |kids| :: kids[i].Valid() && kids[i].Repr <= under
      requires forall i, j | 0 <= i < j < |kids| :: kids[i].Repr !! kids[j].Repr
      ensures Valid() && Repr == {this} + under
      ensures this.kids == kids && this.kind == kind
      ensures view == match kind
                      case Leaf => LeafPb(true, 0, start)
                      case Seq => SeqPb(mode, 0, 0, [], who, 0, Views(kids))
                      case Rot => RotPb(Views(kids))
    {
      this.kind, this.who, this.kids := kind, who, kids;
      active, shown, this.start := true, 0, start;
      this.mode, pos, passes, tbl, draws := mode, 0, 0, [], 0;
      view := match kind
              case Leaf => LeafPb(true, 0, start)
              case Seq => SeqPb(mode, 0, 0, [], who, 0, Views(kids))
              case Rot => RotPb(Views(kids));
      Repr := {this} + under;
      new;
      assert forall i | 0 <= i < |kids| :: this !in kids[i].Repr && kids[i] in kids[i].Repr;
      assert forall i | 0 <= i < |kids| :: kids[i].Valid() && KidView(i);
    }

    /** FrameSequencer::reset_index. */
    method RefillTable(n: nat, sh: Shuffle)
      requires Valid() && kind.Seq? && n >= 1
      modifies this
      ensures Valid() && view == ResetIndex(old(view), n, sh)
    {
      var filled := FillTable(mode, n);
      if mode == RANDOM {
        tbl := sh(who, draws, n);
        draws := draws + 1;
      } else {
        tbl := filled;
      }
      view := SeqPb(mode, pos, passes, tbl, who, draws, view.kids);
    }

    /** FrameSequencer::index: refill a table of the wrong size, then look up the current entry. */
    method Index(n: nat, sh: Shuffle) returns (i: nat)
      requires Valid() && kind.Seq? && n >= 1 && Shuffles(sh)
      requires TableFits(mode, pos, tbl, n) && (tbl == [] || pos < |tbl|)
      modifies this
      ensures Valid() && view == Refilled(old(view), n, sh)
      ensures i < n && pos < |tbl| && i == tbl[pos]
    {
      ResetIndexFits(view, n, sh);
      var ts := n;
      if mode == PINGPONG {
        ts := ts * 2;
        ts := ts - 1;
      }
      if ts != |tbl| { RefillTable(n, sh); }
      i := tbl[pos];
    }

    method Move(p: nat, done: nat)
      requires Valid() && kind.Seq?
      modifies this
      ensures Valid() && view == WithPos(old(view), p, done)
    {
      pos, passes := p, done;
      view := WithPos(view, p, done);
    }

    /** Resetting one child in place. */
    method ResetKid(i: nat, src: Source, now: int, sh: Shuffle)
      requires Valid() && kind.Seq? && i < |kids| && Shuffles(sh) && Match(src, view.kids[i])
      modifies Repr
      ensures Valid() && view == WithKid(old(view), i, Playback.Reset(src, old(view).kids[i], now, sh))
      decreases src, 1
    {
      kids[i].Reset(src, now, sh);
      view := WithKid(view, i, kids[i].view);
    }

    /** The virtual reset of each kind of node. */
    method Reset(src: Source, now: int, sh: Shuffle)
      requires Valid() && Match(src, view) && Shuffles(sh)
      modifies Repr
      ensures Valid() && view == Playback.Reset(src, old(view), now, sh)
      decreases src, 0
    {
      match src
      case Static(_, _, _, _, _) =>
        active, shown, start := true, 0, now;
        view := LeafPb(active, shown, start);
      case Sequencer(_, _, _, _, srcKids) =>
        Move(0, 0);
        RefillTable(|srcKids|, sh);
      case Rotator(_, _, srcKids) =>
        if |srcKids| == 1 {
          kids[0].Reset(srcKids[0], now, sh);
          view := RotPb([kids[0].view]);
        }
    }

    /** Pulling from one child in place. */
    method NextOfKid(i: nat, src: Source, now: int, sh: Shuffle) returns (f: Option<Frame>)
      requires Valid() && kind.Seq? && i < |kids| && Shuffles(sh) && Match(src, view.kids[i])
      modifies Repr
      ensures Valid()
      ensures var (g, kid) := Next(src, old(view).kids[i], now, sh); f == g && view == WithKid(old(view), i, kid)
      decreases src, 6
    {
      f := kids[i].NextFrame(src, now, sh);
      view := WithKid(view, i, kids[i].view);
    }

    /** The loop that resets every child before a new pass. */
    method ResetAllKids(srcKids: seq<Source>, now: int, sh: Shuffle)
      requires Valid() && kind.Seq? && |srcKids| == |kids| && Shuffles(sh)
      requires forall i | 0 <= i < |kids| :: Match(srcKids[i], view.kids[i])
      modifies Repr
      ensures Valid() && view.SeqPb?
      ensures view == SeqPb(mode, pos, passes, tbl, who, draws, ResetKids(srcKids, old(view).kids, now, sh))
      ensures mode == old(mode) && pos == old(pos) && passes == old(passes) && tbl == old(tbl) && draws == old(draws)
    {
      for i := 0 to |kids|
        invariant Valid()
        invariant mode == old(mode) && pos == old(pos) && passes == old(passes)
        invariant tbl == old(tbl) && draws == old(draws)
        invariant forall j | i <= j < |kids| :: view.kids[j] == old(view).kids[j]
        invariant forall j | 0 <= j < i :: view.kids[j] == Playback.Reset(srcKids[j], old(view).kids[j], now, sh)
      {
        ResetKid(i, srcKids[i], now, sh);
      }
      assert view.kids == ResetKids(srcKids, old(view).kids, now, sh);
    }

    /** The nextFrame of each kind of node. */
    method NextFrame(src: Source, now: int, sh: Shuffle) returns (f: Option<Frame>)
      requires Valid() && Match(src, view) && Shuffles(sh)
      modifies Repr
      ensures Valid() && (f, view) == Next(src, old(view), now, sh)
      decreases src, 5
    {
      match src
      case Static(_, data, useDwell, dwell, repeats) =>
        if useDwell {
          if now - start > SignedDwell(dwell) {
            start := now;
            active := false;
          }
        } else {
          if shown >= repeats { active := false; }
          shown := shown + 1;
        }
        if active {
          f := Some(data);
        } else {
          active := true;
          shown := 0;
          f := None;
        }
        view := LeafPb(active, shown, start);
      case Sequencer(_, _, newMode, _, srcKids) =>
        if mode != newMode {
          mode := newMode;
          view := SeqPb(mode, pos, passes, tbl, who, draws, view.kids);
          ResetIndexFits(view, |srcKids|, sh);
          RefillTable(|srcKids|, sh);
        }
        f := RunSequencer(src, now, sh);
      case Rotator(_, _, srcKids) =>
        if |srcKids| == 0 { return None; }
        f := kids[0].NextFrame(srcKids[0], now, sh);
        if f.None? { kids[0].Reset(srcKids[0], now, sh); }
        view := RotPb([kids[0].view]);
    }

    /** One more pass: the counter, a new table, and every child reset. */
    method StartOver(src: Source, now: int, sh: Shuffle)
      requires src.Sequencer? && Valid() && Match(src, view) && Shuffles(sh)
      modifies Repr
      ensures Valid() && view == NewPass(src, old(view), now, sh)
    {
      ResetIndexFits(WithPos(view, 0, passes + 1), |src.kids|, sh);
      Move(0, passes + 1);
      RefillTable(|src.kids|, sh);
      ResetAllKids(src.kids, now, sh);
    }

    /** A pull at the current entry: a frame, or the node is ready to go on to the next entries. */
    method PullHere(src: Source, now: int, sh: Shuffle) returns (f: Option<Frame>)
      requires src.Sequencer? && Valid() && Match(src, view) && Shuffles(sh) && (tbl == [] || pos < |tbl|)
      modifies Repr
      ensures Valid() && Match(src, view) && view.SeqPb? && view.pos < |view.tbl| && view.passes == old(view).passes
      ensures Pull(src, old(view), now, sh) == if f.Some? then (f, view) else Advance(src, view, now, sh)
      decreases src, 3
    {
      ghost var q := Refilled(view, |src.kids|, sh);
      ResetIndexFits(view, |src.kids|, sh);
      var pp := Index(|src.kids|, sh);
      f := NextOfKid(pp, src.kids[pp], now, sh);
      assert Match(src, q);
    }

    /** One round of the inner loop: the next entry's child is reset and pulled from. */
    method PullNext(src: Source, now: int, sh: Shuffle) returns (f: Option<Frame>)
      requires src.Sequencer? && Valid() && Match(src, view) && Shuffles(sh) && pos + 1 < |tbl|
      modifies Repr
      ensures Valid() && Match(src, view) && view.SeqPb?
      ensures view.pos == old(pos) + 1 < |view.tbl| && view.tbl == old(tbl)
      ensures view.passes == old(passes)
      ensures Advance(src, old(view), now, sh) == if f.Some? then (f, view) else Advance(src, view, now, sh)
      decreases src, 3
    {
      ghost var q := Step(src, view, now, sh);
      Move(pos + 1, passes);
      var pp := Index(|src.kids|, sh);
      ResetKid(pp, src.kids[pp], now, sh);
      assert view == q;
      f := NextOfKid(pp, src.kids[pp], now, sh);
    }

    /** The loops of FrameSequencer::nextFrame. */
    method RunSequencer(src: Source, now: int, sh: Shuffle) returns (f: Option<Frame>)
      requires src.Sequencer? && Valid() && Match(src, view) && Shuffles(sh)
      modifies Repr
      ensures Valid() && (f, view) == Loop(src, old(view), now, sh)
      decreases src, 4
    {
      hide Next, Pull, NewPass, Playback.Reset;
      ghost var result := Loop(src, view, now, sh);
      while true
        invariant Valid() && Match(src, view) && result == Loop(src, view, now, sh)
        decreases PassesLeft(src, view), !Playback.AtEnd(view)
      {
        if tbl != [] && pos >= |tbl| - 1 {
          if passes >= src.repeats {
            Reset(src, now, sh);
            return None;
          }
          StartOver(src, now, sh);
        }
        f := PullHere(src, now, sh);
        if f.Some? { return; }
        ghost var done := view.passes;
        while pos < |tbl| - 1
          invariant Valid() && Match(src, view) && pos < |tbl| && passes == done
          invariant result == Advance(src, view, now, sh)
          decreases |tbl| - pos
        {
          f := PullNext(src, now, sh);
          if f.Some? { return; }
        }
      }
    }
  }

  /** FrameSource_impl::createPlayback: new nodes of the source's shape, none of them shared. */
  method Create(src: Source, who: seq<nat>, start: int) returns (n: Node)
    ensures n.Valid() && fresh(n.Repr) && n.view == CreatePlayback(src, who, start)
    decreases src, 1
  {
    match src
    case Static(_, _, _, _, _) =>
      n := new Node(Leaf, who, SEQUENTIAL, start, [], {});
    case Sequencer(_, mode, _, _, srcKids) =>
      var kids, under := CreateKids(srcKids, who, start);
      n := new Node(Seq, who, mode, start, kids, under);
      assert Views(kids) == CreatePlayback(src, who, start).kids;
    case Rotator(_, _, srcKids) =>
      var kids, under := CreateKids(srcKids, who, start);
      n := new Node(Rot, who, SEQUENTIAL, start, kids, under);
      assert Views(kids) == CreatePlayback(src, who, start).kids;
  }

  method CreateKids(srcKids: seq<Source>, who: seq<nat>, start: int) returns (kids: seq<Node>, ghost under: set<object>)
    ensures |kids| == |srcKids| && fresh(under)
    ensures forall i | 0 <= i < |kids| :: kids[i].Valid() && kids[i].Repr <= under
    ensures forall i | 0 <= i < |kids| :: kids[i].view == CreatePlayback(srcKids[i], who + [i], start)
    ensures forall i, j | 0 <= i < j < |kids| :: kids[i].Repr !! kids[j].Repr
    decreases srcKids, 0
  {
    hide CreatePlayback, Node.Valid;
    kids, under := [], {};
    for i := 0 to |srcKids|
      invariant |kids| == i && fresh(under)
      invariant forall j | 0 <= j < i :: kids[j].Valid() && kids[j].Repr <= under
      invariant forall j | 0 <= j < i :: kids[j].view == CreatePlayback(srcKids[j], who + [j], start)
      invariant forall j, k | 0 <= j < k < i :: kids[j].Repr !! kids[k].Repr
    {
      var kid := Create(srcKids[i], who + [i], start);
      kids, under := kids + [kid], under + kid.Repr;
    }
  }
}
