/** What the frames of an ILDA file look like, point by point: where each colour comes from. */
module IldaColours {
  import opened Wrappers
  import opened Sources
  import opened Ilda

  predicate Draws(p: Part) {
    p.Indexed? || p.Direct?
  }

  /** How many frames the first p sections have: the place of the frame of the next one. */
  function Drawn(parts: seq<Part>, p: nat): nat
    requires p <= |parts|
  {
    if p == 0 then 0 else Drawn(parts, p - 1) + if Draws(parts[p - 1]) then 1 else 0
  }

  /** The palette in force before section p: that of the last palette section, or the default one filled up with black
      to 256 colours. */
  function PaletteBefore(parts: seq<Part>, p: nat, defaults: seq<Rgb>): seq<Rgb>
    requires p <= |parts|
  {
    if p == 0 then
      if |defaults| >= 256 then defaults else defaults + seq(256 - |defaults|, _ => Rgb(0, 0, 0))
    else if parts[p - 1].Palette? then parts[p - 1].colours
    else PaletteBefore(parts, p - 1, defaults)
  }

  /** The last true-colour table before section p, if no indexed frame came after it. */
  function TableBefore(parts: seq<Part>, p: nat): Option<seq<Rgb>>
    requires p <= |parts|
  {
    if p == 0 || parts[p - 1].Indexed? then None
    else if parts[p - 1].Table? then Some(parts[p - 1].colours)
    else TableBefore(parts, p - 1)
  }

  lemma {:induction false} AfterSnoc(parts: seq<Part>, p: Part, c: Colours)
    ensures AfterAll(parts + [p], c) == After(p, AfterAll(parts, c))
  {
    if parts == [] {
      assert ([] + [p])[1..] == [];
    } else {
      assert (parts + [p])[1..] == parts[1..] + [p];
      AfterSnoc(parts[1..], p, After(parts[0], c));
    }
  }

  /** The loader's tables before section p. */
  lemma {:induction false} TablesBefore(parts: seq<Part>, p: nat, defaults: seq<Rgb>)
    requires p <= |parts|
    ensures var c := AfterAll(parts[..p], Initial(defaults));
            c.palette == PaletteBefore(parts, p, defaults)
            && match TableBefore(parts, p)
               case None => !c.trueColour
               case Some(table) => c.trueColour && c.table == table
  {
    if p > 0 {
      TablesBefore(parts, p - 1, defaults);
      assert parts[..p] == parts[..p - 1] + [parts[p - 1]];
      AfterSnoc(parts[..p - 1], parts[p - 1], Initial(defaults));
    } else {
      assert parts[..0] == [];
    }
  }

  lemma {:induction false} DrawnTail(parts: seq<Part>, p: nat)
    requires 0 < p <= |parts|
    ensures Drawn(parts, p) == (if Draws(parts[0]) then 1 else 0) + Drawn(parts[1..], p - 1)
  {
    if p > 1 {
      DrawnTail(parts, p - 1);
      assert parts[1..][p - 2] == parts[p - 1];
    }
  }

  lemma FramesSplit(parts: seq<Part>, c: Colours)
    requires Frames(parts, c).Some? && parts != []
    ensures parts[0].Indexed? ==> Coloured(parts[0].raws, c)
    ensures Frames(parts[1..], After(parts[0], c)).Some?
    ensures Frames(parts, c).value == Shown(parts[0], c) + Frames(parts[1..], After(parts[0], c)).value
    ensures |Shown(parts[0], c)| == if Draws(parts[0]) then 1 else 0
  {
    hide Coloured;
  }

  /** Each drawing section has its frame, at its place in the file's order. */
  lemma {:induction false} FrameAt(parts: seq<Part>, c: Colours, p: nat)
    requires Frames(parts, c).Some? && p < |parts|
    ensures parts[p].Indexed? ==> Coloured(parts[p].raws, AfterAll(parts[..p], c))
    ensures Draws(parts[p]) ==>
              Drawn(parts, p) < |Frames(parts, c).value|
              && [Frames(parts, c).value[Drawn(parts, p)]] == Shown(parts[p], AfterAll(parts[..p], c))
    decreases |parts|
  {
    hide Coloured, Frames, Shown, After;
    FramesSplit(parts, c);
    if p == 0 {
      assert parts[..0] == [];
    } else {
      FrameAt(parts[1..], After(parts[0], c), p - 1);
      DrawnTail(parts, p);
      assert parts[..p][1..] == parts[1..][..p - 1];
      assert AfterAll(parts[..p], c) == AfterAll(parts[1..][..p - 1], After(parts[0], c));
    }
  }

  lemma {:induction false} FramesCount(parts: seq<Part>, c: Colours)
    requires Frames(parts, c).Some?
    ensures |Frames(parts, c).value| == Drawn(parts, |parts|)
    decreases |parts|
  {
    if parts != [] {
      hide Coloured, Frames, Shown, After;
      FramesSplit(parts, c);
      FramesCount(parts[1..], After(parts[0], c));
      DrawnTail(parts, |parts|);
    }
  }

  /** A point with this place and state in this colour: blanked if bit 6 of the state is set, whatever the other bits
      are. */
  predicate IsPoint(q: Point, at: Place, state: U8, colour: Rgb) {
    q.x == at.x && q.y == at.y && q.z == at.z && (q.blanked <==> state % 128 >= 64)
    && q.r == colour.r && q.g == colour.g && q.b == colour.b
  }

  lemma BlankedBit(state: U8)
    ensures Blanked(state) <==> state % 128 >= 64
  {
  }

  /** A whole file is loaded as one frame for each drawing section, in file order. An indexed frame's i-th point has the
      i-th colour of the last true-colour table, if there is one since the last indexed frame, and else the colour that
      its index names in the palette in force; a true-colour frame's point has its own. */
  lemma FilePoints(parts: seq<Part>, t: Bytes, defaults: seq<Rgb>, p: nat, i: nat)
    requires PartsOk(parts) && (t == [] || EndMarker(t) || NotIlda(t))
    requires LoadFrom(Put(parts, t), Initial(defaults), []).Loaded?
    ensures |LoadFrom(Put(parts, t), Initial(defaults), []).frames| == Drawn(parts, |parts|)
    ensures p < |parts| && parts[p].Indexed? && i < |parts[p].raws| ==>
              var place := Drawn(parts, p);
              var frames := LoadFrom(Put(parts, t), Initial(defaults), []).frames;
              var raw := parts[p].raws[i];
              place < |frames| && frames[place].Static? && |frames[place].data| == |parts[p].raws|
              && match TableBefore(parts, p)
                 case None => raw.colour < |PaletteBefore(parts, p, defaults)|
                              && IsPoint(frames[place].data[i], raw.at, raw.state,
                                         PaletteBefore(parts, p, defaults)[raw.colour])
                 case Some(table) => i < |table| && IsPoint(frames[place].data[i], raw.at, raw.state, table[i])
    ensures p < |parts| && parts[p].Direct? && i < |parts[p].data| ==>
              var place := Drawn(parts, p);
              var frames := LoadFrom(Put(parts, t), Initial(defaults), []).frames;
              var d := parts[p].data[i];
              place < |frames| && frames[place].Static? && |frames[place].data| == |parts[p].data|
              && IsPoint(frames[place].data[i], d.at, d.state, d.colour)
  {
    hide LoadFrom, Put, Frames, AfterAll, Padded;
    LoadWhole(parts, t, defaults);
    FramesCount(parts, Initial(defaults));
    if p < |parts| {
      FrameAt(parts, Initial(defaults), p);
      TablesBefore(parts, p, defaults);
      if parts[p].Indexed? && i < |parts[p].raws| { BlankedBit(parts[p].raws[i].state); }
      if parts[p].Direct? && i < |parts[p].data| { BlankedBit(parts[p].data[i].state); }
    }
  }

  /** Its other settings: the names from the header up to the first zero byte, once through, no dwell timer. */
  lemma FileSettings(parts: seq<Part>, t: Bytes, defaults: seq<Rgb>, p: nat)
    requires PartsOk(parts) && (t == [] || EndMarker(t) || NotIlda(t)) && p < |parts| && Draws(parts[p])
    requires LoadFrom(Put(parts, t), Initial(defaults), []).Loaded?
    ensures Drawn(parts, p) < |LoadFrom(Put(parts, t), Initial(defaults), []).frames|
    ensures var frame := LoadFrom(Put(parts, t), Initial(defaults), []).frames[Drawn(parts, p)];
            frame.Static? && !frame.useDwell && frame.repeats == 1
            && frame.desc == "ILDA: " + CString(parts[p].head.name) + " By " + CString(parts[p].head.company)
  {
    hide LoadFrom, Put, Frames, AfterAll, CString;
    LoadWhole(parts, t, defaults);
    FrameAt(parts, Initial(defaults), p);
  }

  lemma {:induction false} CStringEnds(b: Bytes, n: nat)
    requires n <= |b| && (n == |b| || b[n] == 0) && forall i | 0 <= i < n :: b[i] != 0
    ensures |CString(b)| == n && forall i | 0 <= i < n :: CString(b)[i] == b[i] as char
  {
    if n > 0 { CStringEnds(b[1..], n - 1); }
  }

  /** One frame is returned as it is; more are the children of a sequencer, in order, under a colour rotator. */
  lemma Wrapped(frames: seq<Source>, file: string)
    ensures |frames| == 0 ==> Wrap(frames, file) == None
    ensures |frames| == 1 ==> Wrap(frames, file) == Some(frames[0])
    ensures |frames| >= 2 ==>
              Wrap(frames, file).Some? && Wrap(frames, file).value.Rotator? && |Wrap(frames, file).value.kids| == 1
              && Wrap(frames, file).value.kids[0].Sequencer? && Wrap(frames, file).value.kids[0].kids == frames
              && Wrap(frames, file).value.kids[0].newMode == SEQUENTIAL
  {
  }
}
