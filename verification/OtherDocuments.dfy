/** Loading documents that were not saved by the program, or not by this version of it. */
module OtherDocuments {
  import opened Wrappers
  import opened Sources
  import opened Xml
  import opened Layout
  import opened ShowTree
  import opened Engine

  // Nodes

  /** An element that is no node yields nothing, and the cursor goes on to the next tag. */
  lemma UnknownElement(doc: Doc, pos: nat)
    requires SkipToStart(doc, pos) < |doc| && doc[SkipToStart(doc, pos)].Start?
    requires doc[SkipToStart(doc, pos)].tag !in {StaticFrame, FrameSequence, ColourRotator}
    ensures LoadAt(doc, pos) == Loaded(None, NextTag(doc, SkipToStart(doc, pos)))
  {
  }

  lemma {:induction false} NoStartLeft(doc: Doc, pos: nat)
    requires forall i | pos <= i < |doc| :: !doc[i].Start?
    ensures LoadAt(doc, pos).Loaded? && LoadAt(doc, pos).tree == None
    decreases |doc| - pos
  {
    if !AtEnd(doc, pos) { NoStartLeft(doc, pos + 1); }
  }

  /** A node without attributes: no dwell timer, counters of zero, sequential play, effects off and black. */
  lemma NoSettings(doc: Doc, pos: nat)
    requires pos < |doc| && doc[pos].Start? && doc[pos].attrs == map[]
    ensures var s := LoadOwn(NEW_STATIC, doc, pos).0; !s.useDwell && s.dwell == 0 && s.repeats == 0
    ensures var s := LoadOwn(NEW_SEQUENCER, doc, pos).0; s.newMode == SEQUENTIAL && s.repeats == 0 && s.kids == []
    ensures LoadOwn(NEW_ROTATOR, doc, pos).0.look
         == Look(Rgb(0, 0, 0), false, false, false, false, Rgb(0, 0, 0))
  {
    hide FindName;
  }

  /** A colour with a channel out of range leaves the colour as it was. */
  lemma ColourOutOfRange(doc: Doc, pos: nat, look: Look)
    requires pos < |doc| && doc[pos].Start?
    ensures ToInt(doc[pos].attrs, PulseR) > 255 || ToInt(doc[pos].attrs, PulseG) > 255
            || ToInt(doc[pos].attrs, PulseB) > 255 ==>
              LoadLook(doc[pos].attrs, look).pulse == look.pulse
    ensures ToInt(doc[pos].attrs, OverrideR) < 0 || ToInt(doc[pos].attrs, OverrideG) < 0
            || ToInt(doc[pos].attrs, OverrideB) < 0 ==>
              LoadLook(doc[pos].attrs, look).overrideColour == look.overrideColour
  {
  }

  /** A static frame without a point list takes the next one in the document, whosever it is, and none at all if there
      is none: it has no points then. */
  lemma {:induction false} NoPointList(doc: Doc, pos: nat)
    requires pos <= |doc| && forall i | pos <= i < |doc| :: TokenName(doc[i]) != PointList
    ensures TokenName(TokenAt(doc, FindName(doc, pos, PointList))) != PointList
    ensures LoadOwn(NEW_STATIC, doc, pos).0.data == []
    decreases |doc| - pos
  {
    if !AtEnd(doc, pos) && TokenName(TokenAt(doc, pos)) != PointList {
      NoPointList(doc, pos + 1);
    }
  }

  /** A node without a children element has no children, and the cursor stays at the start tag found instead. */
  lemma NoChildrenElement(doc: Doc, pos: nat, node: Source)
    requires TokenName(TokenAt(doc, SkipToStart(doc, pos))) != Children
    ensures LoadChildren(doc, pos, node) == Loaded(Some(node), SkipToStart(doc, pos))
  {
  }

  /** A number of children that is missing, negative or none reads no child. */
  lemma NoChildrenAnnounced(doc: Doc, pos: nat, node: Source)
    requires SkipToStart(doc, pos) < |doc|
    requires doc[SkipToStart(doc, pos)].Start? && doc[SkipToStart(doc, pos)].tag == Children
    requires ToInt(doc[SkipToStart(doc, pos)].attrs, Number) <= 0
    ensures LoadChildren(doc, pos, node) == Loaded(Some(node), NextTag(doc, SkipToStart(doc, pos)))
  {
  }

  /** More children announced than there are, or a child that is no node, fails the assertion. */
  lemma ChildMissing(doc: Doc, pos: nat, node: Source, n: nat)
    requires n > 0
    requires var child := LoadAt(doc, SkipToStart(doc, pos)); child.Loaded? && child.tree.None?
    ensures LoadKids(doc, pos, node, n) == Aborted
  {
  }

  // Shows

  /** Without a show element nothing is loaded. */
  lemma {:induction false} NoShowFrom(doc: Doc, pos: nat)
    requires forall i | pos <= i < |doc| :: TokenName(doc[i]) != Lucifer
    ensures TokenName(TokenAt(doc, FindName(doc, pos, Lucifer))) != Lucifer
    ensures !TokenAt(doc, FindName(doc, pos, Lucifer)).Start?
    decreases |doc| - pos
  {
    if !AtEnd(doc, pos) && TokenName(TokenAt(doc, pos)) != Lucifer { NoShowFrom(doc, pos + 1); }
  }

  lemma NoShow(doc: Doc, slots: Slots)
    requires forall i | 0 <= i < |doc| :: TokenName(doc[i]) != Lucifer
    ensures LoadDocument(doc, slots) == ShowLoaded(slots, [])
  {
    NoShowFrom(doc, 0);
  }

  /** Of another version nothing is loaded. */
  lemma OtherVersion(doc: Doc, head: nat, slots: Slots)
    requires head < |doc| && doc[head].Start? && doc[head].tag == Lucifer
    requires forall i | 0 <= i < head :: !doc[i].EndDocument? && !doc[i].Invalid? && TokenName(doc[i]) != Lucifer
    requires ToText(doc[head].attrs, Version) != "1.1.0"
    ensures LoadDocument(doc, slots) == ShowLoaded(slots, [])
  {
    FindNameFinds(doc, 0, head, Lucifer);
  }

  /** A document that is damaged before its show element is not loaded. */
  lemma Damaged(doc: Doc, at: nat, slots: Slots)
    requires at < |doc| && doc[at].Invalid?
    requires forall i | 0 <= i < at :: !doc[i].EndDocument? && !doc[i].Invalid? && TokenName(doc[i]) != Lucifer
    ensures LoadDocument(doc, slots) == ShowLoaded(slots, [])
  {
    DamagedFrom(doc, 0, at);
  }

  lemma {:induction false} DamagedFrom(doc: Doc, a: nat, at: nat)
    requires a <= at < |doc| && doc[at].Invalid?
    requires forall i | a <= i < at :: !doc[i].EndDocument? && !doc[i].Invalid? && TokenName(doc[i]) != Lucifer
    ensures FindName(doc, a, Lucifer) == at
    decreases at - a
  {
    if a < at { DamagedFrom(doc, a + 1, at); }
  }

  /** An element of the show that is no sequence is stepped into, not loaded. */
  lemma OtherElement(doc: Doc, pos: nat, slots: Slots, visits: seq<int>)
    requires pos < |doc| && doc[pos].Start? && doc[pos].tag != Sequence
    ensures LoadSequences(doc, pos, slots, visits) == LoadSequences(doc, NextTag(doc, pos), slots, visits)
  {
    assert SkipToSequence(doc, pos) == pos;
  }

  /** A sequence element without an element in it fails the assertion. */
  lemma EmptySequence(doc: Doc, pos: nat, slots: Slots, visits: seq<int>)
    requires pos < |doc| && doc[pos].Start? && doc[pos].tag == Sequence
    requires NextTag(doc, pos) < |doc| && doc[NextTag(doc, pos)].End?
    ensures LoadSequences(doc, pos, slots, visits) == ShowAborted
  {
    assert SkipToSequence(doc, pos) == pos;
  }

  /** A sequence that is damaged before its first tag ends the load, with what there is. */
  lemma DamagedSequence(doc: Doc, pos: nat, slots: Slots, visits: seq<int>)
    requires pos < |doc| && doc[pos].Start? && doc[pos].tag == Sequence
    requires NextTag(doc, pos) >= |doc| || doc[NextTag(doc, pos)].Invalid?
    ensures LoadSequences(doc, pos, slots, visits) == ShowLoaded(slots, visits)
  {
    assert SkipToSequence(doc, pos) == pos;
  }

  /** A sequence with an unknown element empties its slot; without a position it is slot 0. */
  lemma UnknownSequence(doc: Doc, pos: nat, slots: Slots, visits: seq<int>)
    requires pos < |doc| && doc[pos].Start? && doc[pos].tag == Sequence && doc[pos].attrs == map[]
    requires NextTag(doc, pos) < |doc| && doc[NextTag(doc, pos)].Start?
    requires doc[NextTag(doc, pos)].tag !in {StaticFrame, FrameSequence, ColourRotator}
    ensures LoadSequences(doc, pos, slots, visits)
         == LoadSequences(doc, NextTag(doc, NextTag(doc, pos)), AddSlot(slots, None, 0), visits + [0])
  {
    assert SkipToSequence(doc, pos) == pos;
    assert SkipToStart(doc, NextTag(doc, pos)) == NextTag(doc, pos);
    UnknownElement(doc, NextTag(doc, pos));
  }

  /** The loader stops where the document is damaged, and keeps what it has. */
  lemma DamagedLater(doc: Doc, pos: nat, slots: Slots, visits: seq<int>)
    requires pos < |doc| && (doc[pos].Invalid? || doc[pos].EndDocument? || doc[pos] == End(Lucifer))
    ensures LoadSequences(doc, pos, slots, visits) == ShowLoaded(slots, visits)
  {
  }

  /** A position of 2^63 or more is taken as negative: the tree goes to the lowest empty slot. */
  lemma HugePosition(doc: Doc, pos: nat, n: nat, slots: Slots, visits: seq<int>)
    requires pos < |doc| && doc[pos] == Start(Sequence, map[Position := Num(n)])
    requires 0x8000_0000_0000_0000 <= n < 0x1_0000_0000_0000_0000
    requires NextTag(doc, pos) < |doc| && doc[NextTag(doc, pos)].Start? && LoadAt(doc, NextTag(doc, pos)).Loaded?
    ensures var loaded := LoadAt(doc, NextTag(doc, pos));
            LoadSequences(doc, pos, slots, visits)
            == LoadSequences(doc, loaded.pos, AddSlot(slots, loaded.tree, -1),
                             visits + [n - 0x1_0000_0000_0000_0000])
  {
    hide LoadAt;
    assert SkipToSequence(doc, pos) == pos;
    NegativeSlot(slots, LoadAt(doc, NextTag(doc, pos)).tree, n - 0x1_0000_0000_0000_0000);
  }

  lemma NegativeSlot(slots: Slots, fs: Option<Source>, pos: int)
    requires pos < 0
    ensures AddSlot(slots, fs, pos) == AddSlot(slots, fs, -1)
  {
  }
}
