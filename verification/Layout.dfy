/** Where the tags of a saved frame source tree lie in a document. This is what the writer promises and what the
    reader relies on; the text between the tags is left open. */
module Layout {
  import opened Sources
  import opened Xml
  import opened PointCodec

  function Bool01(b: bool): Attr {
    Num(if b then 1 else 0)
  }

  /** The attributes a node writes on its own element. */
  function SavedAttrs(s: Source): Attrs {
    match s
    case Static(desc, data, useDwell, dwell, repeats) =>
      map[Description := Str(desc), Points := Num(|data|),
          UseDewell := Str(if useDwell then "True" else "False"),
          Dewell := Num(dwell), Repeats := Num(repeats)]
    case Sequencer(desc, mode, _, repeats, _) =>
      map[Description := Str(desc), Repeats := Num(repeats), Mode := Num(mode)]
    case Rotator(desc, look, _) =>
      map[Description := Str(desc), PulseR := Num(look.pulse.r),
          PulseG := Num(look.pulse.g), PulseB := Num(look.pulse.b),
          RotateH := Bool01(look.rotateH), RotateS := Bool01(look.rotateS),
          RotateV := Bool01(look.rotateV), ColourOverride := Bool01(look.override),
          OverrideR := Num(look.overrideColour.r),
          OverrideG := Num(look.overrideColour.g),
          OverrideB := Num(look.overrideColour.b)]
  }

  function ChildrenStart(n: nat): Token {
    Start(Children, map[Number := Num(n)])
  }

  /** No tag of the show's own elements in this stretch. */
  predicate TreeTags(doc: Doc, a: nat, b: nat) {
    a <= b <= |doc| && forall i | a <= i < b :: TokenName(doc[i]) != Sequence && TokenName(doc[i]) != Lucifer
  }

  /** The positions of one node's tags: its start tag at lo, its point list's at pl (a static frame only), its
      children element's at c, the first closing tag after its children at e; it ends just before hi. The stops are
      where the children's element begins and where each child ends. */
  datatype Plan = Plan(lo: nat, pl: nat, c: nat, e: nat, hi: nat, kids: seq<Plan>, stops: seq<nat>)

  /** A point list element from pl on: its bytes follow its start tag at once, unless there are none. */
  predicate PointsLaid(doc: Doc, pl: nat, c: nat, data: seq<Point>) {
    pl + 1 < c <= |doc| && doc[pl] == Start(PointList, map[])
    && TokenText(doc[pl + 1]) == Encode(data) && Clear(doc, pl + 1, c)
  }

  /** A node's own tags, before its children. */
  predicate OpeningLaid(doc: Doc, lo: nat, pl: nat, c: nat, s: Source) {
    lo < c < |doc| && doc[lo] == Start(Name(s), SavedAttrs(s)) && doc[c] == ChildrenStart(|Kids(s)|)
    && if s.Static? then AllText(doc, lo + 1, pl) && PointsLaid(doc, pl, c, s.data) else Clear(doc, lo + 1, c)
  }

  predicate ClosingLaid(doc: Doc, e: nat, hi: nat) {
    e < hi <= |doc| && doc[e].End? && Clear(doc, e, hi)
  }

  /** The i-th node begins after the i-th stop, with only closing tags and text in between, and ends at the next. */
  predicate Gap(doc: Doc, plans: seq<Plan>, stops: seq<nat>, i: nat)
    requires i < |plans| && |stops| == |plans| + 1
  {
    Clear(doc, stops[i], plans[i].lo) && stops[i + 1] == plans[i].hi
  }

  /** Nodes follow one another from a to b. */
  predicate Follow(doc: Doc, a: nat, b: nat, plans: seq<Plan>, stops: seq<nat>) {
    |stops| == |plans| + 1 && stops[0] == a && stops[|plans|] == b
    && forall i | 0 <= i < |plans| :: Gap(doc, plans, stops, i)
  }

  /** The tags of one node, its children's positions included but not their contents. */
  predicate NodeLaid(doc: Doc, p: Plan, s: Source) {
    OpeningLaid(doc, p.lo, p.pl, p.c, s) && ClosingLaid(doc, p.e, p.hi)
    && |p.stops| == |p.kids| + 1 && |p.kids| == |Kids(s)|
    && Follow(doc, p.c + 1, p.stops[|p.kids|], p.kids, p.stops) && Clear(doc, p.stops[|p.kids|], p.e)
  }

  /** A whole tree laid out by this plan. */
  predicate Laid(doc: Doc, p: Plan, s: Source)
    decreases s
  {
    NodeLaid(doc, p, s) && (s.Static? || forall i | 0 <= i < |s.kids| :: Laid(doc, p.kids[i], s.kids[i]))
  }

  lemma LaidBounds(doc: Doc, p: Plan, s: Source)
    requires Laid(doc, p, s)
    ensures NodeLaid(doc, p, s) && p.lo < |doc| && doc[p.lo].Start?
  {
  }

  lemma LaidFrom(doc: Doc, p: Plan, s: Source)
    requires NodeLaid(doc, p, s)
    requires forall i | 0 <= i < |Kids(s)| :: Laid(doc, p.kids[i], Kids(s)[i])
    ensures Laid(doc, p, s)
  {
  }

  // A layout does not depend on what comes after it

  lemma FollowExtends(doc: Doc, more: Doc, a: nat, b: nat, plans: seq<Plan>, stops: seq<nat>)
    requires Follow(doc, a, b, plans, stops) && doc <= more
    ensures Follow(more, a, b, plans, stops)
  {
    forall i | 0 <= i < |plans|
      ensures Gap(more, plans, stops, i)
    {
      assert Gap(doc, plans, stops, i);
    }
  }

  lemma FollowSnoc(doc: Doc, a: nat, b: nat, plans: seq<Plan>, stops: seq<nat>, p: Plan)
    requires Follow(doc, a, b, plans, stops) && Clear(doc, b, p.lo)
    ensures Follow(doc, a, p.hi, plans + [p], stops + [p.hi])
  {
    forall i | 0 <= i < |plans + [p]|
      ensures Gap(doc, plans + [p], stops + [p.hi], i)
    {
      assert i < |plans| ==> Gap(doc, plans, stops, i);
    }
  }

  lemma OpeningLaidExtends(doc: Doc, more: Doc, lo: nat, pl: nat, c: nat, s: Source)
    requires OpeningLaid(doc, lo, pl, c, s) && doc <= more
    ensures OpeningLaid(more, lo, pl, c, s)
  {
  }

  lemma NodeLaidExtends(doc: Doc, more: Doc, p: Plan, s: Source)
    requires NodeLaid(doc, p, s) && doc <= more
    ensures NodeLaid(more, p, s)
  {
    OpeningLaidExtends(doc, more, p.lo, p.pl, p.c, s);
    FollowExtends(doc, more, p.c + 1, p.stops[|p.kids|], p.kids, p.stops);
  }

  lemma {:induction false} LaidExtends(doc: Doc, more: Doc, p: Plan, s: Source)
    requires Laid(doc, p, s) && doc <= more
    ensures Laid(more, p, s)
    decreases s
  {
    NodeLaidExtends(doc, more, p, s);
    if !s.Static? {
      forall i | 0 <= i < |s.kids|
        ensures Laid(more, p.kids[i], s.kids[i])
      {
        LaidExtends(doc, more, p.kids[i], s.kids[i]);
      }
    }
  }

  lemma AllLaidSnoc(doc: Doc, plans: seq<Plan>, kids: seq<Source>, p: Plan, i: nat)
    requires i < |kids| && AllLaid(doc, plans, kids[..i]) && Laid(doc, p, kids[i])
    ensures AllLaid(doc, plans + [p], kids[..i + 1])
  {
    assert kids[..i + 1] == kids[..i] + [kids[i]];
  }

  predicate AllLaid(doc: Doc, plans: seq<Plan>, kids: seq<Source>) {
    |plans| == |kids| && forall i | 0 <= i < |kids| :: Laid(doc, plans[i], kids[i])
  }

  lemma AllLaidExtends(doc: Doc, more: Doc, plans: seq<Plan>, kids: seq<Source>)
    requires AllLaid(doc, plans, kids) && doc <= more
    ensures AllLaid(more, plans, kids)
  {
    forall i | 0 <= i < |kids|
      ensures Laid(more, plans[i], kids[i])
    {
      LaidExtends(doc, more, plans[i], kids[i]);
    }
  }
}
