/** The engine's slots: where new content goes, importing, and saving and loading a whole show. */
module Engine {
  import opened Wrappers
  import opened Sources
  import opened Xml
  import opened Layout
  import opened ShowTree

  type Slots = seq<Option<Source>>

  // Slot allocation

  /** The lowest empty slot from i on, or the end of the slots. */
  function FirstEmpty(slots: Slots, i: nat): (r: nat)
    requires i <= |slots|
    ensures i <= r <= |slots| && (r < |slots| ==> slots[r].None?)
    ensures forall j | i <= j < r :: slots[j].Some?
    decreases |slots| - i
  {
    if i == |slots| || slots[i].None? then i else FirstEmpty(slots, i + 1)
  }

  function Resized(slots: Slots, n: nat): Slots {
    if n <= |slots| then slots[..n] else slots + seq(n - |slots|, _ => None)
  }

  /** The slots after content is put at a position; a negative one means the lowest empty slot or a new one. */
  function AddSlot(slots: Slots, fs: Option<Source>, pos: int): (r: Slots)
    ensures var at := if pos < 0 then FirstEmpty(slots, 0) else pos;
            at < |r| && r[at] == fs && |r| == (if at < |slots| then |slots| else at + 1)
            && (forall j | 0 <= j < |slots| && j != at :: r[j] == slots[j])
            && (forall j | |slots| <= j < at :: r[j].None?)
  {
    var at := if pos < 0 then FirstEmpty(slots, 0) else pos;
    var grown := if |slots| <= at then Resized(slots, at + 1) else slots;
    grown[at := fs]
  }

  /** Adding without a position never loses content: it is put in no occupied slot. */
  lemma AddLosesNothing(slots: Slots, fs: Option<Source>)
    ensures forall j | 0 <= j < |slots| && slots[j].Some? :: AddSlot(slots, fs, -1)[j] == slots[j]
    ensures forall j | 0 <= j < FirstEmpty(slots, 0) :: slots[j].Some?
    ensures AddSlot(slots, fs, -1)[FirstEmpty(slots, 0)] == fs
  {
  }

  // Importing

  /** The slots after importing files that each loaded to a tree or failed; only the first tree goes to the
      index that was asked for. */
  function Imported(slots: Slots, files: seq<Option<Source>>, idx: int): Slots
    decreases |files|
  {
    if files == [] then slots
    else if files[0].None? then Imported(slots, files[1..], idx)
    else Imported(AddSlot(slots, files[0], idx), files[1..], -1)
  }

  predicate Keeps(before: Slots, after: Slots, but: int) {
    |before| <= |after| && forall j | 0 <= j < |before| && j != but && before[j].Some? :: after[j] == before[j]
  }

  /** An import overwrites at most the slot that was asked for, and every tree that was read can be found
      in a slot of its own afterwards. */
  lemma {:induction false} ImportReachesAll(slots: Slots, files: seq<Option<Source>>, idx: int) returns (at: seq<nat>)
    ensures Keeps(slots, Imported(slots, files, idx), idx)
    ensures |at| == |files|
    ensures forall i | 0 <= i < |files| && files[i].Some? ::
              at[i] < |Imported(slots, files, idx)| && Imported(slots, files, idx)[at[i]] == files[i]
    ensures forall i, j | 0 <= i < j < |files| && files[i].Some? && files[j].Some? :: at[i] != at[j]
    ensures forall i | 0 <= i < |files| && files[i].Some? && at[i] != idx :: at[i] >= |slots| || slots[at[i]].None?
    decreases |files|
  {
    if files == [] {
      at := [];
    } else if files[0].None? {
      var rest := ImportReachesAll(slots, files[1..], idx);
      at := [0] + rest;
    } else {
      var first := if idx < 0 then FirstEmpty(slots, 0) else idx;
      var next := AddSlot(slots, files[0], idx);
      var rest := ImportReachesAll(next, files[1..], -1);
      at := [first] + rest;
    }
  }

  function Readable(files: seq<Option<Source>>): seq<Option<Source>> {
    if files == [] then [] else (if files[0].Some? then [files[0]] else []) + Readable(files[1..])
  }

  /** Files that cannot be read make no difference, not even to the index. */
  lemma {:induction false} ImportSkips(slots: Slots, files: seq<Option<Source>>, idx: int)
    ensures Imported(slots, files, idx) == Imported(slots, Readable(files), idx)
    decreases |files|
  {
    hide AddSlot;
    if files != [] {
      var rest := Readable(files[1..]);
      if files[0].None? {
        ImportSkips(slots, files[1..], idx);
        assert Readable(files) == rest;
      } else {
        ImportSkips(AddSlot(slots, files[0], idx), files[1..], -1);
        assert Readable(files)[0] == files[0] && Readable(files)[1..] == rest;
      }
    }
  }

  /** The first file that can be read is in the slot that was asked for, whatever was there before. */
  lemma {:induction false} ImportAtIndex(slots: Slots, files: seq<Option<Source>>, idx: nat, i: nat)
    requires i < |files| && files[i].Some? && forall j | 0 <= j < i :: files[j].None?
    ensures idx < |Imported(slots, files, idx)| && Imported(slots, files, idx)[idx] == files[i]
    decreases |files|
  {
    if i == 0 {
      var at := ImportReachesAll(AddSlot(slots, files[0], idx), files[1..], -1);
    } else {
      ImportAtIndex(slots, files[1..], idx, i - 1);
    }
  }

  /** Without an index each tree is in a slot behind that of the tree before it, and has no empty slot below it: the
      trees fill the empty slots in order. */
  lemma {:induction false} ImportFillsUp(slots: Slots, files: seq<Option<Source>>) returns (at: seq<nat>)
    requires forall f | f in files :: f.Some?
    ensures |at| == |files| && Keeps(slots, Imported(slots, files, -1), -1)
    ensures forall i | 0 <= i < |at| ::
              at[i] < |Imported(slots, files, -1)| && Imported(slots, files, -1)[at[i]] == files[i]
    ensures forall i | 0 <= i < |at| :: at[i] >= FirstEmpty(slots, 0)
    ensures forall i, j | 0 <= i < j < |at| :: at[i] < at[j]
    ensures |at| > 0 ==> forall k: nat | k <= at[|at| - 1] :: Imported(slots, files, -1)[k].Some?
    decreases |files|
  {
    at := [];
    if files != [] {
      var first := FirstEmpty(slots, 0);
      var next := AddSlot(slots, files[0], -1);
      NextEmpty(slots, files[0]);
      var rest := ImportFillsUp(next, files[1..]);
      at := [first] + rest;
    }
  }

  lemma NextEmpty(slots: Slots, fs: Option<Source>)
    requires fs.Some?
    ensures var next := AddSlot(slots, fs, -1);
            FirstEmpty(next, 0) > FirstEmpty(slots, 0) && Keeps(slots, next, -1)
            && next[FirstEmpty(slots, 0)] == fs && forall k | 0 <= k <= FirstEmpty(slots, 0) :: next[k].Some?
  {
    var next := AddSlot(slots, fs, -1);
    assert FirstEmpty(next, 0) == |next| || next[FirstEmpty(next, 0)].None?;
  }

  // Saving a show: where its elements lie

  const VERSION := "1.1.0"

  /** One saved slot: its sequence element from at to end, around its tree. */
  datatype Entry = Entry(at: nat, tree: Plan, end: nat)

  predicate EntryLaid(doc: Doc, en: Entry, slot: nat, s: Source) {
    en.at < en.tree.lo < en.tree.hi <= en.end < |doc|
    && doc[en.at] == Start(Sequence, map[Position := Num(slot)]) && AllText(doc, en.at + 1, en.tree.lo)
    && Laid(doc, en.tree, s) && TreeTags(doc, en.tree.lo, en.tree.hi)
    && AllText(doc, en.tree.hi, en.end) && doc[en.end] == End(Sequence)
  }

  /** Slot i begins after tag marks[i]; an empty slot leaves nothing behind. */
  predicate SlotLaid(doc: Doc, entries: seq<Entry>, marks: seq<nat>, slots: Slots, i: nat)
    requires i < |slots| == |entries| && |marks| == |slots| + 1
  {
    if slots[i].None? then marks[i + 1] == marks[i]
    else marks[i] < entries[i].at && AllText(doc, marks[i] + 1, entries[i].at)
         && EntryLaid(doc, entries[i], i, slots[i].value) && marks[i + 1] == entries[i].end
  }

  predicate SlotsLaid(doc: Doc, entries: seq<Entry>, marks: seq<nat>, slots: Slots) {
    |entries| == |slots| && |marks| == |slots| + 1
    && forall i | 0 <= i < |slots| :: SlotLaid(doc, entries, marks, slots, i)
  }

  /** The whole document: nothing but text before the show element, the slots in order, and its end. */
  predicate ShowLaid(doc: Doc, head: nat, tail: nat, entries: seq<Entry>, marks: seq<nat>, slots: Slots) {
    head < tail < |doc| && (forall i | 0 <= i < head :: doc[i].NoToken? || doc[i].StartDocument? || doc[i].Text?)
    && doc[head].Start? && doc[head].tag == Lucifer && ToText(doc[head].attrs, Version) == VERSION
    && SlotsLaid(doc, entries, marks, slots) && marks[0] == head
    && marks[|slots|] < tail && AllText(doc, marks[|slots|] + 1, tail) && doc[tail] == End(Lucifer)
  }

  lemma EntryLaidExtends(doc: Doc, more: Doc, en: Entry, slot: nat, s: Source)
    requires EntryLaid(doc, en, slot, s) && doc <= more
    ensures EntryLaid(more, en, slot, s)
  {
    hide Laid;
    LaidExtends(doc, more, en.tree, s);
  }

  lemma SlotsLaidExtends(doc: Doc, more: Doc, entries: seq<Entry>, marks: seq<nat>, slots: Slots)
    requires SlotsLaid(doc, entries, marks, slots) && doc <= more
    ensures SlotsLaid(more, entries, marks, slots)
  {
    hide EntryLaid;
    forall i | 0 <= i < |slots|
      ensures SlotLaid(more, entries, marks, slots, i)
    {
      assert SlotLaid(doc, entries, marks, slots, i);
      if slots[i].Some? {
        EntryLaidExtends(doc, more, entries[i], i, slots[i].value);
      }
    }
  }

  lemma SlotsLaidSnoc(doc: Doc, entries: seq<Entry>, marks: seq<nat>, slots: Slots, i: nat, en: Entry, mark: nat)
    requires i < |slots| && SlotsLaid(doc, entries, marks, slots[..i])
    requires SlotLaid(doc, entries + [en], marks + [mark], slots[..i + 1], i)
    ensures SlotsLaid(doc, entries + [en], marks + [mark], slots[..i + 1])
  {
    var es, ms, part := entries + [en], marks + [mark], slots[..i + 1];
    forall j | 0 <= j < |part|
      ensures SlotLaid(doc, es, ms, part, j)
    {
      assert j < i ==> SlotLaid(doc, entries, marks, slots[..i], j);
    }
  }

  /** One sequence element of ShowSaver::run. */
  method SaveSlot(s: Source, slot: nat, w: Writer) returns (ghost en: Entry)
    requires w.Valid() && w.out != []
    modifies w
    ensures old(w.out) <= w.out && w.open == old(w.open)
    ensures |old(w.out)| <= en.at && AllText(w.out, |old(w.out)|, en.at)
    ensures EntryLaid(w.out, en, slot, s) && en.end == |w.out| - 1
  {
    hide Laid;
    w.WriteStartElement(Sequence);
    ghost var at := |w.out| - 1;
    ghost var before := w.out[..at];
    w.WriteAttribute(Position, Num(slot));
    assert before <= w.out;
    ghost var tree := SaveFrames(s, w);
    ghost var inside := w.out;
    w.WriteEndElement();
    LaidExtends(inside, w.out, tree, s);
    en := Entry(at, tree, |w.out| - 1);
  }

  /** The loop of ShowSaver::run over the slots. */
  method SaveSlots(slots: Slots, w: Writer) returns (ghost entries: seq<Entry>, ghost marks: seq<nat>)
    requires w.Valid() && w.out != []
    modifies w
    ensures old(w.out) <= w.out && w.open == old(w.open)
    ensures SlotsLaid(w.out, entries, marks, slots) && marks[0] == |old(w.out)| - 1 && marks[|slots|] == |w.out| - 1
  {
    entries, marks := [], [|w.out| - 1];
    for i := 0 to |slots|
      invariant old(w.out) <= w.out && w.open == old(w.open)
      invariant SlotsLaid(w.out, entries, marks, slots[..i])
      invariant marks[0] == |old(w.out)| - 1 && marks[i] == |w.out| - 1
    {
      ghost var before := w.out;
      ghost var en := Entry(0, Plan(0, 0, 0, 0, 0, [], []), 0);
      if slots[i].Some? {
        en := SaveSlot(slots[i].value, i, w);
      }
      SlotsLaidExtends(before, w.out, entries, marks, slots[..i]);
      SlotsLaidSnoc(w.out, entries, marks, slots, i, en, |w.out| - 1);
      entries, marks := entries + [en], marks + [|w.out| - 1];
    }
    assert slots[..|slots|] == slots;
  }

  // Loading a show

  /** What the loader leaves in the slots, and the index of each sequence it loaded, in the order in which it loaded
      them; or a failed assertion. */
  datatype ShowLoading = ShowLoaded(slots: Slots, visits: seq<int>) | ShowAborted

  function SkipToSequence(doc: Doc, pos: nat): (p: nat)
    ensures p >= pos
    decreases |doc| - pos
  {
    if AtEnd(doc, pos) || TokenAt(doc, pos).Start? || TokenName(TokenAt(doc, pos)) == Sequence then pos
    else SkipToSequence(doc, pos + 1)
  }

  /** An unsigned 64-bit index passed as a signed one. */
  function SignedIndex(n: nat): int {
    if n < 0x8000_0000_0000_0000 then n else n - 0x1_0000_0000_0000_0000
  }

  /** The main loop of ShowLoader::run, from a cursor, on any document at all, after these visits. */
  function LoadSequences(doc: Doc, pos: nat, slots: Slots, visits: seq<int>): ShowLoading
    decreases |doc| - pos
  {
    if AtEnd(doc, pos) || TokenAt(doc, pos) == End(Lucifer) then ShowLoaded(slots, visits)
    else
      var p := SkipToSequence(doc, pos);
      if TokenAt(doc, p).Start? && TokenName(TokenAt(doc, p)) == Sequence then
        var t := NextTag(doc, p);
        if TokenAt(doc, t).Invalid? then ShowLoaded(slots, visits)
        else if !TokenAt(doc, t).Start? then ShowAborted
        else
          match LoadAt(doc, t)
          case Aborted => ShowAborted
          case Loaded(fs, q) =>
            var index := SignedIndex(ToULong(TokenAttrs(TokenAt(doc, p)), Position));
            LoadSequences(doc, q, AddSlot(slots, fs, index), visits + [index])
      else LoadSequences(doc, NextTag(doc, p), slots, visits)
  }

  /** ShowLoader::run as a whole: find the show element, check its version, read the sequences. */
  function LoadDocument(doc: Doc, slots: Slots): ShowLoading {
    var head := FindName(doc, 0, Lucifer);
    if !TokenAt(doc, head).Invalid? && ToText(TokenAttrs(TokenAt(doc, head)), Version) == VERSION
    then LoadSequences(doc, head, slots, [])
    else ShowLoaded(slots, [])
  }

  class Engine {
    var sources: Slots

    constructor ()
      ensures sources == []
    {
      sources := [];
    }

    /** Engine::addFrameSource. */
    method AddFrameSource(fs: Option<Source>, pos: int)
      modifies this
      ensures sources == AddSlot(old(sources), fs, pos)
    {
      var at := pos;
      if at < 0 {
        var i := 0;
        while i < |sources|
          invariant 0 <= i <= |sources| && at < 0
          invariant FirstEmpty(sources, 0) == FirstEmpty(sources, i)
        {
          if sources[i].None? {
            at := i;
            break;
          }
          i := i + 1;
        }
        if at < 0 { at := |sources|; }
      }
      if |sources| <= at { sources := Resized(sources, at + 1); }
      sources := sources[at := fs];
    }

    method GetFrameSource(pos: nat) returns (fs: Option<Source>)
      ensures fs == if pos < |sources| then sources[pos] else None
    {
      fs := if pos < |sources| then sources[pos] else None;
    }

    /** The clearing part of Engine::loadShow. */
    method Clear()
      modifies this
      ensures sources == []
    {
      for i := 0 to |sources|
        invariant |sources| == |old(sources)|
      {
        sources := sources[i := None];
      }
      sources := [];
    }

    /** ShowSaver::run. */
    method SaveShow(date: string, w: Writer)
        returns (ghost head: nat, ghost tail: nat, ghost entries: seq<Entry>, ghost marks: seq<nat>)
      requires w.Valid() && w.out == [NoToken] && w.open == []
      modifies w
      ensures ShowLaid(w.out, head, tail, entries, marks, sources)
      ensures tail + 2 == |w.out| && w.out[tail + 1] == EndDocument
    {
      w.WriteStartDocument();
      ghost var start := w.out;
      w.WriteStartElement(Lucifer);
      head := |w.out| - 1;
      ghost var before := w.out[..head];
      w.WriteAttribute(Version, Str(VERSION));
      w.WriteAttribute(Date, Str(date));
      assert start <= before <= w.out;
      ghost var shown := w.out;
      entries, marks := SaveSlots(sources, w);
      ghost var inside := w.out;
      assert before <= w.out && w.out[head] == shown[head];
      w.WriteEndElement();
      tail := |w.out| - 1;
      w.WriteEndDocument();
      SlotsLaidExtends(inside, w.out, entries, marks, sources);
    }

    /** ShowLoader::run. */
    method LoadShow(r: Reader) returns (aborted: bool, ghost visits: seq<int>)
      requires r.pos == 0
      modifies this, r
      ensures LoadDocument(r.doc, old(sources)) == if aborted then ShowAborted else ShowLoaded(sources, visits)
    {
      r.SkipUntilName(Lucifer);
      if r.Token().Invalid? || ToText(TokenAttrs(r.Token()), Version) != VERSION { return false, []; }
      aborted, visits := ReadSequences(r);
    }

    /** Its main loop. */
    method ReadSequences(r: Reader) returns (aborted: bool, ghost visits: seq<int>)
      modifies this, r
      ensures LoadSequences(r.doc, old(r.pos), old(sources), [])
           == if aborted then ShowAborted else ShowLoaded(sources, visits)
    {
      ghost var result := LoadSequences(r.doc, r.pos, sources, []);
      visits := [];
      while !AtEnd(r.doc, r.pos)
        invariant result == LoadSequences(r.doc, r.pos, sources, visits)
        decreases |r.doc| - r.pos
      {
        if r.Token() == End(Lucifer) { return false, visits; }
        ghost var from, before := r.pos, sources;
        while !AtEnd(r.doc, r.pos) && !r.Token().Start? && TokenName(r.Token()) != Sequence
          invariant sources == before && r.pos >= from && SkipToSequence(r.doc, from) == SkipToSequence(r.doc, r.pos)
          decreases |r.doc| - r.pos
        {
          r.ReadNext();
        }
        if r.Token().Start? && TokenName(r.Token()) == Sequence {
          var index := ToULong(TokenAttrs(r.Token()), Position);
          r.ReadNextStartElement();
          if r.Token().Invalid? { return false, visits; }
          if !r.Token().Start? { return true, visits; }
          var loaded := LoadFrames(r);
          if loaded.Aborted? { return true, visits; }
          AddFrameSource(loaded.tree, SignedIndex(index));
          visits := visits + [SignedIndex(index)];
        } else {
          r.ReadNextStartElement();
        }
      }
      aborted := false;
    }

    /** ShowImporter::run, given what each file loaded to. */
    method Import(files: seq<Option<Source>>, index: int)
      modifies this
      ensures sources == Imported(old(sources), files, index)
    {
      var idx := index;
      for i := 0 to |files|
        invariant Imported(old(sources), files, index) == Imported(sources, files[i..], idx)
      {
        assert files[i..][1..] == files[i + 1..];
        if files[i].Some? {
          AddFrameSource(files[i], idx);
          idx := -1;
        }
      }
    }
  }
}
