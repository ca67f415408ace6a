/** Loading what was saved: the round trip of one tree, at every depth and in any layout. */
module RoundTrip {
  import opened Wrappers
  import opened Sources
  import opened Xml
  import opened PointCodec
  import opened Layout
  import opened ShowTree

  /** What the program can save: the arity rule holds and child counts fit a signed 32-bit number. */
  predicate Storable(s: Source) {
    match s
    case Static(_, _, _, _, _) => true
    case Sequencer(_, _, _, _, kids) => |kids| < 0x8000_0000 && forall k | k in kids :: Storable(k)
    case Rotator(_, _, kids) => |kids| <= 1 && forall k | k in kids :: Storable(k)
  }

  /** A leaf's counters are written as unsigned numbers and read as signed ones: the upper half comes back as zero. */
  function SignedOrZero(n: U32): U32 {
    if n < 0x8000_0000 then n else 0
  }

  /** The node that comes back, without its children. */
  function Bare(s: Source): Source {
    match s
    case Static(desc, data, useDwell, dwell, repeats) =>
      Static(desc, data, useDwell, SignedOrZero(dwell), SignedOrZero(repeats))
    case Sequencer(desc, mode, _, repeats, _) => Sequencer(desc, SEQUENTIAL, mode, repeats, [])
    case Rotator(desc, look, _) => Rotator(desc, look, [])
  }

  /** The tree that comes back. A sequencer's saved mode arrives as the mode it is about to switch to. */
  function Reloaded(s: Source): Source
    decreases s, 1
  {
    if s.Static? then Bare(s) else WithKids(Bare(s), ReloadedAll(s.kids))
  }

  function ReloadedAll(kids: seq<Source>): (r: seq<Source>)
    ensures |r| == |kids|
    ensures forall i | 0 <= i < |kids| :: r[i] == Reloaded(kids[i])
    decreases kids, 0
  {
    if kids == [] then [] else [Reloaded(kids[0])] + ReloadedAll(kids[1..])
  }

  // What a save and a load change

  /** A tree that comes back exactly as it was. */
  predicate Settled(s: Source) {
    match s
    case Static(_, _, _, dwell, repeats) => dwell < 0x8000_0000 && repeats < 0x8000_0000
    case Sequencer(_, mode, newMode, _, kids) =>
      mode == SEQUENTIAL && newMode == SEQUENTIAL && forall k | k in kids :: Settled(k)
    case Rotator(_, _, kids) => forall k | k in kids :: Settled(k)
  }

  predicate AllSequential(s: Source) {
    match s
    case Static(_, _, _, _, _) => true
    case Sequencer(_, mode, _, _, kids) => mode == SEQUENTIAL && forall k | k in kids :: AllSequential(k)
    case Rotator(_, _, kids) => forall k | k in kids :: AllSequential(k)
  }

  lemma {:induction false} ReloadedIsSame(s: Source)
    ensures Reloaded(s) == s <==> Settled(s)
  {
    if !s.Static? {
      forall i | 0 <= i < |s.kids|
        ensures Reloaded(s.kids[i]) == s.kids[i] <==> Settled(s.kids[i])
      {
        ReloadedIsSame(s.kids[i]);
      }
      assert ReloadedAll(s.kids) == s.kids <==> forall i | 0 <= i < |s.kids| :: Reloaded(s.kids[i]) == s.kids[i];
    }
  }

  /** A tree that is saved and loaded twice without being played in between keeps its play modes only if they were
      all sequential: the first load leaves the mode waiting to be switched to, and the second save does not look
      there. */
  lemma {:induction false} ReloadedTwice(s: Source)
    ensures Reloaded(Reloaded(s)) == Reloaded(s) <==> AllSequential(s)
  {
    if !s.Static? {
      var once := ReloadedAll(s.kids);
      var twice := ReloadedAll(once);
      forall i | 0 <= i < |s.kids|
        ensures twice[i] == once[i] <==> AllSequential(s.kids[i])
      {
        ReloadedTwice(s.kids[i]);
      }
      assert twice == once <==> forall i | 0 <= i < |s.kids| :: twice[i] == once[i];
    }
  }

  // Reading a layout

  lemma FindsPointList(doc: Doc, lo: nat, pl: nat)
    requires lo < pl < |doc| && TokenName(doc[lo]) != PointList && doc[lo].Start?
    requires forall i | lo + 1 <= i < pl :: doc[i].Text?
    requires TokenName(doc[pl]) == PointList
    ensures FindName(doc, lo, PointList) == pl
  {
    forall i | lo <= i < pl
      ensures !doc[i].EndDocument? && !doc[i].Invalid? && TokenName(doc[i]) != PointList
    {
    }
    FindNameFinds(doc, lo, pl, PointList);
  }

  lemma DecodesEncoded(data: seq<Point>)
    ensures Decode(Encode(data)) == data
  {
    PointCodec.RoundTrip(data, []);
    assert Encode(data) + [] == Encode(data);
  }

  lemma StaticAttrs(s: Source)
    requires s.Static?
    ensures ToText(SavedAttrs(s), UseDewell) == "True" <==> s.useDwell
    ensures ToInt(SavedAttrs(s), Dewell) % 0x1_0000_0000 == SignedOrZero(s.dwell)
    ensures ToInt(SavedAttrs(s), Repeats) % 0x1_0000_0000 == SignedOrZero(s.repeats)
  {
  }

  lemma LoadOwnStatic(doc: Doc, lo: nat, pl: nat, c: nat, s: Source)
    requires s.Static? && OpeningLaid(doc, lo, pl, c, s)
    ensures LoadStatic(s.desc, doc, lo) == (Bare(s), pl + 1)
  {
    FindsPointList(doc, lo, pl);
    StaticAttrs(s);
    DecodesEncoded(s.data);
  }

  lemma LoadLookSaved(s: Source, look: Look)
    requires s.Rotator?
    ensures LoadLook(SavedAttrs(s), look) == s.look
  {
  }

  lemma LoadOwnRotator(doc: Doc, lo: nat, s: Source)
    requires s.Rotator? && lo < |doc| && doc[lo] == Start(Name(s), SavedAttrs(s))
    ensures LoadOwn(WithDesc(NewLike(s), s.desc), doc, lo) == (Bare(s), lo)
  {
    LoadLookSaved(s, NEW_ROTATOR.look);
  }

  lemma LoadOwnSequencer(doc: Doc, lo: nat, s: Source)
    requires s.Sequencer? && lo < |doc| && doc[lo] == Start(Name(s), SavedAttrs(s))
    ensures LoadOwn(WithDesc(NewLike(s), s.desc), doc, lo) == (Bare(s), lo)
  {
  }

  /** Reading a node's own settings restores them and leaves the cursor before its children. */
  lemma LoadOwnLaid(doc: Doc, lo: nat, pl: nat, c: nat, s: Source)
    requires OpeningLaid(doc, lo, pl, c, s)
    ensures var r := LoadOwn(WithDesc(NewLike(s), s.desc), doc, lo);
            r.0 == Bare(s) && r.1 < c && Clear(doc, r.1 + 1, c)
  {
    match s
    case Static(_, _, _, _, _) => LoadOwnStatic(doc, lo, pl, c, s);
    case Sequencer(_, _, _, _, _) => LoadOwnSequencer(doc, lo, s);
    case Rotator(_, _, _) => LoadOwnRotator(doc, lo, s);
  }

  lemma DescriptionSaved(s: Source)
    ensures ToText(SavedAttrs(s), Description) == s.desc
  {
  }

  /** Loading a node reads its settings and turns to its children. */
  lemma LoadOpening(doc: Doc, p: nat, lo: nat, pl: nat, c: nat, s: Source) returns (q: nat)
    requires Clear(doc, p, lo) && OpeningLaid(doc, lo, pl, c, s)
    ensures LoadAt(doc, p) == LoadChildren(doc, q, Bare(s)) && Clear(doc, q, c)
  {
    hide LoadChildren, LoadOwn, Bare, SavedAttrs;
    SkipFinds(doc, p, lo);
    DescriptionSaved(s);
    LoadOwnLaid(doc, lo, pl, c, s);
    var r := LoadOwn(WithDesc(NewLike(s), s.desc), doc, lo);
    q := NextTag(doc, r.1);
    NextTagStays(doc, r.1, c);
  }

  lemma LoadChildrenLaid(doc: Doc, q: nat, c: nat, s: Source)
    requires Storable(s) && Clear(doc, q, c) && c < |doc| && doc[c] == ChildrenStart(|Kids(s)|)
    ensures LoadChildren(doc, q, Bare(s)) == LoadKids(doc, NextTag(doc, c), Bare(s), |Kids(s)|)
  {
    SkipFinds(doc, q, c);
  }

  lemma AppendChild(f: Source, kid: Source)
    requires CanTakeChild(f)
    ensures AddChild(f, kid, -1).0 == WithKids(f, f.kids + [kid])
  {
    assert f.kids[..|f.kids|] == f.kids;
  }

  /** A load that returned this tree and left its cursor between p and the end tag at e. */
  ghost predicate Loads(r: Loading, doc: Doc, p: nat, e: nat, tree: Source) {
    r.Loaded? && r.tree == Some(tree) && p <= r.pos <= e && Clear(doc, r.pos, e)
  }

  /** One round of the children's loop. */
  lemma LoadsStep(doc: Doc, from: nat, at: nat, e: nat, f: Source, g: Source, kid: Source, n: nat, tree: Source)
    requires n > 0 && CanTakeChild(f) && g == WithKids(f, f.kids + [kid]) && SkipToStart(doc, from) == at
    requires LoadAt(doc, at).Loaded? && LoadAt(doc, at).tree == Some(kid)
    requires var q := NextTag(doc, LoadAt(doc, at).pos); Loads(LoadKids(doc, q, g, n - 1), doc, q, e, tree)
    ensures Loads(LoadKids(doc, from, f, n), doc, from, e, tree)
  {
    AppendChild(f, kid);
    assert LoadKids(doc, from, f, n) == LoadKids(doc, NextTag(doc, LoadAt(doc, at).pos), g, n - 1);
  }

  /** Node s as loaded so far, with its first i children. */
  function Partly(s: Source, i: nat): Source
    requires !s.Static? && i <= |s.kids|
  {
    WithKids(Bare(s), ReloadedAll(s.kids)[..i])
  }

  lemma SnocSlice<T>(all: seq<T>, i: nat)
    requires i < |all|
    ensures all[..i] + [all[i]] == all[..i + 1]
  {
  }

  lemma PartlyNext(s: Source, i: nat)
    requires !s.Static? && i < |s.kids| && Storable(s)
    ensures CanTakeChild(Partly(s, i))
    ensures WithKids(Partly(s, i), Partly(s, i).kids + [Reloaded(s.kids[i])]) == Partly(s, i + 1)
  {
    SnocSlice(ReloadedAll(s.kids), i);
  }

  lemma PartlyAll(s: Source)
    requires !s.Static?
    ensures Partly(s, 0) == Bare(s) && Partly(s, |s.kids|) == Reloaded(s)
  {
    var all := ReloadedAll(s.kids);
    assert all[..|all|] == all;
  }

  /** The round trip. From any cursor before the node with no start tag in between, loading returns the tree
      that was saved and stops inside the node with no start tag before the node's end. */
  lemma {:induction false} LoadLaid(doc: Doc, pos: nat, p: Plan, s: Source)
    requires Storable(s) && Clear(doc, pos, p.lo) && Laid(doc, p, s)
    ensures LoadAt(doc, pos).Loaded? && LoadAt(doc, pos).tree == Some(Reloaded(s))
    ensures p.lo < LoadAt(doc, pos).pos < p.hi && Clear(doc, LoadAt(doc, pos).pos, p.hi)
    decreases s, |Kids(s)| + 1
  {
    hide LoadAt;
    LaidBounds(doc, p, s);
    var q := LoadOpening(doc, pos, p.lo, p.pl, p.c, s);
    LoadChildrenLaid(doc, q, p.c, s);
    if s.Static? {
      NextTagStays(doc, p.c, p.e);
    } else {
      PartlyAll(s);
      LoadKidsLaid(doc, p.c, p, s, 0);
      assert LoadsRest(doc, NextTag(doc, p.c), p.e, s, 0);
      ClearJoin(doc, LoadAt(doc, pos).pos, p.e, p.hi);
    }
  }

  /** Loading the children from the i-th on, from this cursor, completes the tree. */
  ghost predicate LoadsRest(doc: Doc, from: nat, e: nat, s: Source, i: nat)
    requires !s.Static? && i <= |s.kids|
  {
    Loads(LoadKids(doc, from, Partly(s, i), |s.kids| - i), doc, from, e, Reloaded(s))
  }

  lemma LoadsRestStep(doc: Doc, from: nat, at: nat, e: nat, s: Source, i: nat)
    requires !s.Static? && i < |s.kids| && Storable(s) && SkipToStart(doc, from) == at
    requires LoadAt(doc, at).Loaded? && LoadAt(doc, at).tree == Some(Reloaded(s.kids[i]))
    requires LoadsRest(doc, NextTag(doc, LoadAt(doc, at).pos), e, s, i + 1)
    ensures LoadsRest(doc, from, e, s, i)
  {
    hide LoadAt, LoadKids, Partly, Reloaded;
    PartlyNext(s, i);
    LoadsStep(doc, from, at, e, Partly(s, i), Partly(s, i + 1), Reloaded(s.kids[i]), |s.kids| - i, Reloaded(s));
  }

  lemma LoadsRestDone(doc: Doc, from: nat, e: nat, s: Source)
    requires !s.Static? && Clear(doc, from, e)
    ensures LoadsRest(doc, from, e, s, |s.kids|)
  {
    PartlyAll(s);
  }

  lemma KidLaid(doc: Doc, p: Plan, s: Source, i: nat)
    requires !s.Static? && i < |s.kids| && Laid(doc, p, s)
    ensures NodeLaid(doc, p, s) && Laid(doc, p.kids[i], s.kids[i]) && Gap(doc, p.kids, p.stops, i)
    ensures p.kids[i].lo < |doc| && doc[p.kids[i].lo].Start?
  {
    LaidBounds(doc, p.kids[i], s.kids[i]);
  }

  /** The children's loop from the i-th child on, entered by moving to the next tag after pos: the cursor stays before
      each next child's start tag, and in the end before the first closing tag. */
  lemma {:induction false} LoadKidsLaid(doc: Doc, pos: nat, p: Plan, s: Source, i: nat)
    requires Storable(s) && !s.Static? && i <= |s.kids| && Laid(doc, p, s)
    requires i < |p.stops| && pos < p.stops[i] && Clear(doc, pos + 1, p.stops[i])
    ensures pos < NextTag(doc, pos)
    ensures LoadsRest(doc, NextTag(doc, pos), p.e, s, i)
    decreases s, |s.kids| - i
  {
    hide LoadAt, LoadsRest, NextTag, SkipToStart, OpeningLaid, Reloaded;
    if i == |s.kids| {
      LaidBounds(doc, p, s);
      ClearJoin(doc, pos + 1, p.stops[i], p.e);
      NextTagStays(doc, pos, p.e);
      LoadsRestDone(doc, NextTag(doc, pos), p.e, s);
    } else {
      KidLaid(doc, p, s, i);
      var at, next := p.kids[i].lo, NextTag(doc, pos);
      ClearJoin(doc, pos + 1, p.stops[i], at);
      NextTagStays(doc, pos, at);
      SkipFinds(doc, next, at);
      LoadLaid(doc, at, p.kids[i], s.kids[i]);
      LoadKidsLaid(doc, LoadAt(doc, at).pos, p, s, i + 1);
      LoadsRestStep(doc, next, at, p.e, s, i);
    }
  }
}
