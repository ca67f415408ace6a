/** Writing a frame source tree as XML and reading it back. The reader matches no end tags: it stops
    somewhere among the closing tags of the subtree and relies on later skips to find the next start tag. */
module ShowTree {
  import opened Wrappers
  import opened Sources
  import opened Xml
  import opened PointCodec
  import opened Layout

  // Writing

  /** The start tag of node s is the last token, with its description and nothing else so far. */
  predicate Opened(out: Doc, s: Source) {
    out != [] && out[|out| - 1] == Start(Name(s), map[Description := Str(s.desc)])
  }

  /** The `save` of each kind of node: first the attributes, on the open start tag. */
  method SaveStatic(s: Source, w: Writer)
    requires s.Static? && Opened(w.out, s)
    modifies w
    ensures |w.out| == |old(w.out)| && old(w.out)[..|old(w.out)| - 1] <= w.out
    ensures w.out[|w.out| - 1] == Start(Name(s), SavedAttrs(s))
    ensures w.out[|w.out| - 1].attrs
         == map[Description := Str(s.desc), Points := Num(|s.data|),
                UseDewell := Str(if s.useDwell then "True" else "False"),
                Dewell := Num(s.dwell), Repeats := Num(s.repeats)]
    ensures w.open == old(w.open)
  {
    w.WriteAttribute(Points, Num(|s.data|));
    w.WriteAttribute(UseDewell, Str(if s.useDwell then "True" else "False"));
    w.WriteAttribute(Dewell, Num(s.dwell));
    w.WriteAttribute(Repeats, Num(s.repeats));
  }

  method SaveSequencer(s: Source, w: Writer)
    requires s.Sequencer? && Opened(w.out, s)
    modifies w
    ensures |w.out| == |old(w.out)| && old(w.out)[..|old(w.out)| - 1] <= w.out
    ensures w.out[|w.out| - 1] == Start(Name(s), SavedAttrs(s))
    ensures w.out[|w.out| - 1].attrs
         == map[Description := Str(s.desc), Repeats := Num(s.repeats), Mode := Num(s.mode)]
    ensures w.open == old(w.open)
  {
    w.WriteAttribute(Repeats, Num(s.repeats));
    w.WriteAttribute(Mode, Num(s.mode));
  }

  method SaveRotator(s: Source, w: Writer)
    requires s.Rotator? && Opened(w.out, s)
    modifies w
    ensures |w.out| == |old(w.out)| && old(w.out)[..|old(w.out)| - 1] <= w.out
    ensures w.out[|w.out| - 1] == Start(Name(s), SavedAttrs(s))
    ensures w.open == old(w.open)
  {
    var look := s.look;
    w.WriteAttribute(PulseR, Num(look.pulse.r));
    w.WriteAttribute(PulseG, Num(look.pulse.g));
    w.WriteAttribute(PulseB, Num(look.pulse.b));
    w.WriteAttribute(RotateH, Bool01(look.rotateH));
    w.WriteAttribute(RotateS, Bool01(look.rotateS));
    w.WriteAttribute(RotateV, Bool01(look.rotateV));
    w.WriteAttribute(ColourOverride, Bool01(look.override));
    w.WriteAttribute(OverrideR, Num(look.overrideColour.r));
    w.WriteAttribute(OverrideG, Num(look.overrideColour.g));
    w.WriteAttribute(OverrideB, Num(look.overrideColour.b));
  }

  /** The settings of a colour rotator by name. */
  lemma RotatorSettings(s: Source)
    requires s.Rotator?
    ensures var a, look := SavedAttrs(s), s.look;
            a.Keys == {Description, PulseR, PulseG, PulseB, RotateH, RotateS, RotateV, ColourOverride, OverrideR,
                       OverrideG, OverrideB}
            && a[Description] == Str(s.desc)
            && a[PulseR] == Num(look.pulse.r) && a[PulseG] == Num(look.pulse.g) && a[PulseB] == Num(look.pulse.b)
            && a[RotateH] == Num(if look.rotateH then 1 else 0) && a[RotateS] == Num(if look.rotateS then 1 else 0)
            && a[RotateV] == Num(if look.rotateV then 1 else 0)
            && a[ColourOverride] == Num(if look.override then 1 else 0)
            && a[OverrideR] == Num(look.overrideColour.r) && a[OverrideG] == Num(look.overrideColour.g)
            && a[OverrideB] == Num(look.overrideColour.b)
  {
  }

  /** Then, for a static frame, the point list element. */
  method SavePoints(data: seq<Point>, w: Writer) returns (ghost pl: nat)
    requires w.Valid() && w.out != [] && w.open != []
    modifies w
    ensures old(w.out) <= w.out && |old(w.out)| <= pl && AllText(w.out, |old(w.out)|, pl)
    ensures PointsLaid(w.out, pl, |w.out|, data)
    ensures TreeTags(w.out, |old(w.out)|, |w.out|)
    ensures w.open == old(w.open)
  {
    hide Encode, PointCodec.Decode;
    var b := EncodePoints(data);
    w.WriteStartElement(PointList);
    pl := |w.out| - 1;
    w.WriteCharacters(b);
    w.WriteEndElement();
  }

  /** The start tag of a node at lo, with its settings, and its point list. */
  method SaveOwn(s: Source, w: Writer) returns (ghost lo: nat, ghost pl: nat)
    requires w.Valid()
    modifies w
    ensures old(w.out) <= w.out && |old(w.out)| <= lo < |w.out| && AllText(w.out, |old(w.out)|, lo)
    ensures w.out[lo] == Start(Name(s), SavedAttrs(s))
    ensures if s.Static? then AllText(w.out, lo + 1, pl) && PointsLaid(w.out, pl, |w.out|, s.data)
            else |w.out| == lo + 1
    ensures TreeTags(w.out, |old(w.out)|, |w.out|)
    ensures w.open == old(w.open) + [Name(s)]
  {
    w.WriteStartElement(Name(s));
    lo, pl := |w.out| - 1, 0;
    ghost var before := w.out[..lo];
    w.WriteAttribute(Description, Str(s.desc));
    match s {
      case Static(_, _, _, _, _) => SaveStatic(s, w);
      case Sequencer(_, _, _, _, _) => SaveSequencer(s, w);
      case Rotator(_, _, _) => SaveRotator(s, w);
    }
    assert before <= w.out;
    if s.Static? { pl := SavePoints(s.data, w); }
  }

  /** The start of a node, up to the start tag of its children. */
  method SaveHead(s: Source, w: Writer) returns (ghost lo: nat, ghost pl: nat)
    requires w.Valid()
    modifies w
    ensures old(w.out) <= w.out && |old(w.out)| <= lo < |w.out| && AllText(w.out, |old(w.out)|, lo)
    ensures OpeningLaid(w.out, lo, pl, |w.out| - 1, s)
    ensures TreeTags(w.out, |old(w.out)|, |w.out|)
    ensures w.open == old(w.open) + [Name(s), Children]
  {
    lo, pl := SaveOwn(s, w);
    ghost var own := w.out;
    w.WriteStartElement(Children);
    ghost var mid := w.out[..|w.out| - 1];
    w.WriteAttribute(Number, Num(|Kids(s)|));
    assert own <= mid <= w.out;
  }

  /** The loop over the children, and where each of them lies. */
  method SaveKids(kids: seq<Source>, w: Writer) returns (ghost plans: seq<Plan>, ghost stops: seq<nat>)
    requires w.Valid()
    modifies w
    ensures old(w.out) <= w.out && w.open == old(w.open)
    ensures AllLaid(w.out, plans, kids) && Follow(w.out, |old(w.out)|, |w.out|, plans, stops)
    ensures TreeTags(w.out, |old(w.out)|, |w.out|)
    decreases kids, 0
  {
    plans, stops := [], [|w.out|];
    ghost var start := |w.out|;
    for i := 0 to |kids|
      invariant old(w.out) <= w.out && w.open == old(w.open)
      invariant TreeTags(w.out, start, |w.out|)
      invariant AllLaid(w.out, plans, kids[..i]) && Follow(w.out, start, |w.out|, plans, stops)
    {
      ghost var before := w.out;
      ghost var p := SaveFrames(kids[i], w);
      AllLaidExtends(before, w.out, plans, kids[..i]);
      FollowExtends(before, w.out, start, |before|, plans, stops);
      AllLaidSnoc(w.out, plans, kids, p, i);
      FollowSnoc(w.out, start, |before|, plans, stops, p);
      plans, stops := plans + [p], stops + [p.hi];
    }
    assert kids[..|kids|] == kids;
  }

  /** The two end tags of a node; the first one is at e. */
  method SaveTail(s: Source, w: Writer) returns (ghost e: nat)
    requires w.Valid() && w.out != [] && |w.open| >= 2
    requires w.open[|w.open| - 2] == Name(s) && w.open[|w.open| - 1] == Children
    modifies w
    ensures old(w.out) <= w.out && |old(w.out)| <= e && AllText(w.out, |old(w.out)|, e)
    ensures ClosingLaid(w.out, e, |w.out|) && TreeTags(w.out, |old(w.out)|, |w.out|)
    ensures w.open == old(w.open)[..|old(w.open)| - 2]
  {
    w.WriteEndElement();
    e := |w.out| - 1;
    w.WriteEndElement();
  }

  /** FrameSource_impl::saveFrames: what it appends is a layout of the tree, and nothing before it changes. */
  method SaveFrames(s: Source, w: Writer) returns (ghost p: Plan)
    requires w.Valid()
    modifies w
    ensures old(w.out) <= w.out && |old(w.out)| <= p.lo && AllText(w.out, |old(w.out)|, p.lo)
    ensures Laid(w.out, p, s) && p.lo < p.hi == |w.out| && TreeTags(w.out, |old(w.out)|, |w.out|)
    ensures w.open == old(w.open)
    decreases s, 1
  {
    hide Laid, OpeningLaid, Gap;
    ghost var lo, pl := SaveHead(s, w);
    ghost var head := w.out;
    ghost var c := |head| - 1;
    ghost var plans, stops := [], [c + 1];
    if !s.Static? { plans, stops := SaveKids(s.kids, w); }
    ghost var mid := w.out;
    ghost var e := SaveTail(s, w);
    p := Plan(lo, pl, c, e, |w.out|, plans, stops);
    OpeningLaidExtends(head, w.out, lo, pl, c, s);
    FollowExtends(mid, w.out, c + 1, |mid|, plans, stops);
    AllLaidExtends(mid, w.out, plans, Kids(s));
    LaidFrom(w.out, p, s);
  }

  // Reading

  /** What loading yields: a tree (or nothing, for an unknown element) and the cursor it leaves behind,
      or a failed assertion. */
  datatype Loading = Loaded(tree: Option<Source>, pos: nat) | Aborted

  function ChannelOr(r: int, g: int, b: int, old_: Rgb): Rgb {
    if 0 <= r < 0x100 && 0 <= g < 0x100 && 0 <= b < 0x100 then Rgb(r, g, b) else old_
  }

  /** Reading a static frame: its counters, then the point list, wherever the next one is. */
  function LoadStatic(desc: string, doc: Doc, pos: nat): (Source, nat) {
    var a := TokenAttrs(TokenAt(doc, pos));
    var at := FindName(doc, pos, PointList);
    var found := TokenName(TokenAt(doc, at)) == PointList;
    var end := if found then Next(doc, at) else at;
    (Static(desc, if found then Decode(TokenText(TokenAt(doc, end))) else [],
            ToText(a, UseDewell) == "True", ToInt(a, Dewell) % 0x1_0000_0000, ToInt(a, Repeats) % 0x1_0000_0000),
     end)
  }

  function LoadLook(a: Attrs, look: Look): Look {
    Look(ChannelOr(ToInt(a, PulseR), ToInt(a, PulseG), ToInt(a, PulseB), look.pulse),
         ToInt(a, RotateH) != 0, ToInt(a, RotateS) != 0, ToInt(a, RotateV) != 0, ToInt(a, ColourOverride) != 0,
         ChannelOr(ToInt(a, OverrideR), ToInt(a, OverrideG), ToInt(a, OverrideB), look.overrideColour))
  }

  /** The `load` of each kind of node: its settings, and the cursor it leaves. */
  function LoadOwn(f: Source, doc: Doc, pos: nat): (r: (Source, nat))
    ensures r.1 >= pos
    ensures Kids(r.0) == Kids(f) && Name(r.0) == Name(f)
  {
    var a := TokenAttrs(TokenAt(doc, pos));
    match f
    case Static(desc, _, _, _, _) => LoadStatic(desc, doc, pos)
    case Sequencer(desc, mode, _, _, kids) => (Sequencer(desc, mode, ToUInt(a, Mode), ToUInt(a, Repeats), kids), pos)
    case Rotator(desc, look, kids) => (Rotator(desc, LoadLook(a, look), kids), pos)
  }

  /** What FrameSource_impl::loadFrames returns from a cursor, on any document at all. */
  function LoadAt(doc: Doc, pos: nat): (r: Loading)
    ensures r.Loaded? ==> r.pos >= pos
    decreases |doc| - pos, 0
  {
    var at := SkipToStart(doc, pos);
    match NewSource(TokenName(TokenAt(doc, at)))
    case None => Loaded(None, NextTag(doc, at))
    case Some(f) =>
      var (g, p) := LoadOwn(WithDesc(f, ToText(TokenAttrs(TokenAt(doc, at)), Description)), doc, at);
      LoadChildren(doc, NextTag(doc, p), g)
  }

  /** The second half of loadFrames: find the children element and load what it announces. */
  function LoadChildren(doc: Doc, pos: nat, g: Source): (r: Loading)
    ensures r.Loaded? ==> r.pos >= pos
    decreases |doc| - pos, 2
  {
    var c := SkipToStart(doc, pos);
    if TokenName(TokenAt(doc, c)) == Children then
      LoadKids(doc, NextTag(doc, c), g, ToInt(TokenAttrs(TokenAt(doc, c)), Number))
    else Loaded(Some(g), c)
  }

  /** The loop that loads n children into a node; adding a missing child fails an assertion. */
  function LoadKids(doc: Doc, pos: nat, f: Source, n: int): (r: Loading)
    ensures r.Loaded? ==> r.pos >= pos
    decreases |doc| - pos, 1, n
  {
    if n <= 0 then Loaded(Some(f), pos)
    else
      match LoadAt(doc, SkipToStart(doc, pos))
      case Aborted => Aborted
      case Loaded(None, _) => Aborted
      case Loaded(Some(kid), p) => LoadKids(doc, NextTag(doc, p), AddChild(f, kid, -1).0, n - 1)
  }

  method Load(f: Source, r: Reader) returns (g: Source)
    modifies r
    ensures (g, r.pos) == LoadOwn(f, r.doc, old(r.pos))
  {
    var a := TokenAttrs(r.Token());
    match f
    case Static(desc, data0, useDwell0, dwell0, repeats0) =>
      var useDwell := ToText(a, UseDewell) == "True";
      var dwell := ToInt(a, Dewell) % 0x1_0000_0000;
      var repeats := ToInt(a, Repeats) % 0x1_0000_0000;
      var data := [];
      r.SkipUntilName(PointList);
      if TokenName(r.Token()) == PointList {
        r.ReadNext();
        data := DecodePoints(TokenText(r.Token()));
      }
      g := Static(desc, data, useDwell, dwell, repeats);
    case Sequencer(desc, mode, newMode, repeats, kids) =>
      g := Sequencer(desc, mode, ToUInt(a, Mode), ToUInt(a, Repeats), kids);
    case Rotator(desc, look, kids) =>
      var pulse := ChannelOr(ToInt(a, PulseR), ToInt(a, PulseG), ToInt(a, PulseB), look.pulse);
      var over := ChannelOr(ToInt(a, OverrideR), ToInt(a, OverrideG), ToInt(a, OverrideB), look.overrideColour);
      g := Rotator(desc, Look(pulse, ToInt(a, RotateH) != 0, ToInt(a, RotateS) != 0, ToInt(a, RotateV) != 0,
                              ToInt(a, ColourOverride) != 0, over), kids);
  }

  /** FrameSource_impl::loadFrames. When it aborts the cursor is left unspecified. */
  method LoadFrames(r: Reader) returns (res: Loading)
    modifies r
    ensures res == LoadAt(r.doc, old(r.pos))
    ensures res.Loaded? ==> res.pos == r.pos
    decreases |r.doc| - r.pos
  {
    r.SkipUntilStart();
    var name := TokenName(r.Token());
    var made := NewSource(name);
    if made.None? {
      r.ReadNextStartElement();
      return Loaded(None, r.pos);
    }
    var fs := Load(WithDesc(made.value, ToText(TokenAttrs(r.Token()), Description)), r);
    r.ReadNextStartElement();
    r.SkipUntilStart();
    if TokenName(r.Token()) == Children {
      var nc := ToInt(TokenAttrs(r.Token()), Number);
      r.ReadNextStartElement();
      var i := 0;
      while i < nc
        invariant nc > 0 ==> i <= nc
        invariant r.pos > old(r.pos)
        invariant LoadAt(r.doc, old(r.pos)) == LoadKids(r.doc, r.pos, fs, nc - i)
        decreases nc - i
      {
        r.SkipUntilStart();
        var kid := LoadFrames(r);
        if kid.Aborted? || kid.tree.None? { return Aborted; }
        var added := AddChild(fs, kid.tree.value, -1);
        fs := added.0;
        r.ReadNextStartElement();
        i := i + 1;
      }
    }
    res := Loaded(Some(fs), r.pos);
  }
}
