/** Saving a whole show and loading it again: every tree returns to its own slot. */
module ShowRoundTrip {
  import opened Wrappers
  import opened Sources
  import opened Xml
  import opened Layout
  import opened ShowTree
  import opened RoundTrip
  import opened Engine

  /** Slot indexes are 32-bit counters and every tree can be saved. */
  predicate Savable(slots: Slots) {
    |slots| <= 0x1_0000_0000 && forall i | 0 <= i < |slots| :: slots[i].Some? ==> Storable(slots[i].value)
  }

  /** The slots after loading the first n slots of a saved show over these. */
  function Restored(base: Slots, slots: Slots, n: nat): Slots
    requires n <= |slots|
  {
    if n == 0 then base
    else
      var before := Restored(base, slots, n - 1);
      if slots[n - 1].None? then before else AddSlot(before, Some(Reloaded(slots[n - 1].value)), n - 1)
  }

  /** The occupied ones of the first n slots, in order. */
  function Occupied(slots: Slots, n: nat): seq<int>
    requires n <= |slots|
  {
    if n == 0 then [] else Occupied(slots, n - 1) + if slots[n - 1].Some? then [n - 1] else []
  }

  /** Every saved tree is at its own index, every other slot is as it was, and no slot is added past the last saved
      one: with nothing there before, the slots end at the last occupied index. */
  ghost predicate Overlaid(base: Slots, slots: Slots, r: Slots) {
    (forall i | 0 <= i < |slots| && slots[i].Some? :: i < |r| && r[i] == Some(Reloaded(slots[i].value)))
    && (forall i | 0 <= i < |base| && (i >= |slots| || slots[i].None?) :: i < |r| && r[i] == base[i])
    && (forall i | |base| <= i < |r| && (i >= |slots| || slots[i].None?) :: r[i].None?)
    && |r| >= |base| && (|r| > |base| ==> |r| <= |slots| && slots[|r| - 1].Some?)
  }

  lemma OverlayNext(base: Slots, slots: Slots, r: Slots, last: Option<Source>)
    requires Overlaid(base, slots, r)
    ensures Overlaid(base, slots + [last], if last.None? then r else AddSlot(r, Some(Reloaded(last.value)), |slots|))
  {
    hide AddSlot, Reloaded;
  }

  lemma {:induction false} RestoredOverlays(base: Slots, slots: Slots, n: nat)
    requires n <= |slots|
    ensures Overlaid(base, slots[..n], Restored(base, slots, n))
  {
    if n > 0 {
      RestoredOverlays(base, slots, n - 1);
      assert slots[..n] == slots[..n - 1] + [slots[n - 1]];
      OverlayNext(base, slots[..n - 1], Restored(base, slots, n - 1), slots[n - 1]);
    }
  }

  lemma {:induction false} SkipFindsSequence(doc: Doc, a: nat, b: nat)
    requires Clear(doc, a, b) && b < |doc| && TokenName(doc[b]) == Sequence
    requires forall i | a <= i < b :: TokenName(doc[i]) != Sequence
    ensures SkipToSequence(doc, a) == b
    decreases b - a
  {
    if a < b {
      assert doc[a].End? || doc[a].Text?;
      SkipFindsSequence(doc, a + 1, b);
    }
  }

  /** From inside a loaded tree the loader goes on behind that sequence element. */
  lemma LeaveEntry(doc: Doc, q: nat, en: Entry, slot: nat, s: Source, slots: Slots, visits: seq<int>)
    requires EntryLaid(doc, en, slot, s) && en.tree.lo < q < en.tree.hi && Clear(doc, q, en.tree.hi)
    ensures LoadSequences(doc, q, slots, visits) == LoadSequences(doc, NextTag(doc, en.end), slots, visits)
  {
    hide Laid;
    ClearJoin(doc, q, en.tree.hi, en.end);
    assert TokenName(doc[q]) != Lucifer;
    SkipFindsSequence(doc, q, en.end);
  }

  /** One sequence element puts its tree in its slot. */
  lemma LoadEntry(doc: Doc, en: Entry, slot: nat, s: Source, slots: Slots, visits: seq<int>)
    requires EntryLaid(doc, en, slot, s) && Storable(s) && slot < 0x1_0000_0000
    ensures LoadSequences(doc, en.at, slots, visits)
         == LoadSequences(doc, NextTag(doc, en.end), AddSlot(slots, Some(Reloaded(s)), slot), visits + [slot])
  {
    hide LoadAt, Reloaded, AddSlot, Laid, NodeLaid;
    LaidBounds(doc, en.tree, s);
    NextTagIs(doc, en.at, en.tree.lo);
    LoadLaid(doc, en.tree.lo, en.tree, s);
    LeaveEntry(doc, LoadAt(doc, en.tree.lo).pos, en, slot, s, AddSlot(slots, Some(Reloaded(s)), slot), visits + [slot]);
  }

  /** From any slot on, the loader loads each saved element exactly once, in the order of the slots. */
  lemma {:induction false} LoadSlots(doc: Doc, head: nat, tail: nat, entries: seq<Entry>, marks: seq<nat>,
                                     base: Slots, slots: Slots, i: nat)
    requires ShowLaid(doc, head, tail, entries, marks, slots) && Savable(slots) && i <= |slots|
    ensures LoadSequences(doc, NextTag(doc, marks[i]), Restored(base, slots, i), Occupied(slots, i))
         == ShowLoaded(Restored(base, slots, |slots|), Occupied(slots, |slots|))
    decreases |slots| - i
  {
    hide EntryLaid;
    if i == |slots| {
      NextTagIs(doc, marks[i], tail);
    } else {
      assert SlotLaid(doc, entries, marks, slots, i);
      LoadSlots(doc, head, tail, entries, marks, base, slots, i + 1);
      if slots[i].Some? {
        EntryStart(doc, entries[i], i, slots[i].value);
        NextTagIs(doc, marks[i], entries[i].at);
        LoadEntry(doc, entries[i], i, slots[i].value, Restored(base, slots, i), Occupied(slots, i));
      } else {
        assert Occupied(slots, i) + [] == Occupied(slots, i);
      }
    }
  }

  /** The occupied indexes: all of them, each once, in order. */
  lemma {:induction false} OccupiedOnce(slots: Slots, n: nat)
    requires n <= |slots|
    ensures forall x :: x in Occupied(slots, n) <==> 0 <= x < n && slots[x].Some?
    ensures forall i, j | 0 <= i < j < |Occupied(slots, n)| :: Occupied(slots, n)[i] < Occupied(slots, n)[j]
  {
    if n > 0 {
      OccupiedOnce(slots, n - 1);
      var early := Occupied(slots, n - 1);
      assert forall i | 0 <= i < |early| :: early[i] in early;
    }
  }

  lemma EntryStart(doc: Doc, en: Entry, slot: nat, s: Source)
    requires EntryLaid(doc, en, slot, s)
    ensures en.at < |doc| && doc[en.at].Start?
  {
  }

  /** The loader leaves the show's own start tag behind. */
  lemma PassHead(doc: Doc, head: nat, slots: Slots)
    requires head < |doc| && doc[head].Start? && doc[head].tag == Lucifer
    ensures LoadSequences(doc, head, slots, []) == LoadSequences(doc, NextTag(doc, head), slots, [])
  {
    assert SkipToSequence(doc, head) == head;
  }

  /** Loading a saved show over any slots puts each of its trees back at the index it was saved from. */
  lemma SaveThenLoad(doc: Doc, head: nat, tail: nat, entries: seq<Entry>, marks: seq<nat>, base: Slots, slots: Slots)
    requires ShowLaid(doc, head, tail, entries, marks, slots) && Savable(slots)
    ensures LoadDocument(doc, base) == ShowLoaded(Restored(base, slots, |slots|), Occupied(slots, |slots|))
    ensures Overlaid(base, slots, Restored(base, slots, |slots|))
  {
    hide LoadSequences, SlotsLaid, Overlaid, Savable;
    FindNameFinds(doc, 0, head, Lucifer);
    PassHead(doc, head, base);
    LoadSlots(doc, head, tail, entries, marks, base, slots, 0);
    RestoredOverlays(base, slots, |slots|);
    assert slots[..|slots|] == slots;
  }

  /** The same for the engine itself: save, clear, load. */
  method SaveClearLoad(e: Engine, blank: seq<Token>, date: string) returns (aborted: bool, ghost visits: seq<int>)
    requires Savable(e.sources) && Blank(blank)
    modifies e
    ensures !aborted && Overlaid([], old(e.sources), e.sources)
    ensures visits == Occupied(old(e.sources), |old(e.sources)|)
  {
    var w := new Writer(blank);
    ghost var slots := e.sources;
    ghost var head, tail, entries, marks := e.SaveShow(date, w);
    e.Clear();
    var r := new Reader(w.out);
    aborted, visits := e.LoadShow(r);
    SaveThenLoad(w.out, head, tail, entries, marks, [], slots);
  }
}
