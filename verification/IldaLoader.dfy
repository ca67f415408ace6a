/** The ILDA loader itself: an object whose tables change while it consumes a stream. */
module IldaLoader {
  import opened Wrappers
  import opened Sources
  import opened PointCodec
  import opened Ilda

  class Stream {
    var rest: Bytes

    constructor (content: Bytes)
      ensures rest == content
    {
      rest := content;
    }

    method U8() returns (v: U8)
      modifies this
      ensures (v, rest) == ReadU8(old(rest))
    {
      if rest == [] {
        v := 0;
      } else {
        v, rest := rest[0], rest[1..];
      }
    }

    method U16() returns (v: nat)
      modifies this
      ensures (v, rest) == ReadU16(old(rest))
    {
      if |rest| < 2 {
        v, rest := 0, [];
      } else {
        v, rest := (rest[0] as nat) * 0x100 + rest[1], rest[2..];
      }
    }

    method I16() returns (v: I16)
      modifies this
      ensures (v, rest) == ReadI16(old(rest))
    {
      if |rest| < 2 {
        v, rest := 0, [];
      } else {
        v, rest := Short(rest[0], rest[1]), rest[2..];
      }
    }

    method U32() returns (v: nat)
      modifies this
      ensures (v, rest) == ReadU32(old(rest))
    {
      if |rest| < 4 {
        v, rest := 0, [];
      } else {
        v := (rest[0] as nat) * 0x100_0000 + (rest[1] as nat) * 0x1_0000 + (rest[2] as nat) * 0x100 + rest[3];
        rest := rest[4..];
      }
    }

    method Raw(n: nat) returns (v: Bytes)
      modifies this
      ensures v == Taken(old(rest), n) && rest == Rest(old(rest), n)
    {
      v := Taken(rest, n);
      rest := Rest(rest, n);
    }

    method Skip(n: int)
      modifies this
      ensures rest == SkipSigned(old(rest), n)
    {
      rest := SkipSigned(rest, n);
    }
  }

  /** What comes of one section besides its frame. */
  datatype Outcome = Continue | Eof | Fault

  class Ildaloader {
    var palette_: seq<Rgb>
    var colour: seq<Rgb>
    var trueColour: bool

    constructor ()
      ensures !trueColour
    {
      palette_, colour, trueColour := [], [], false;
    }

    ghost function Now(): Colours
      reads this
    {
      Colours(palette_, colour, trueColour)
    }

    method ReadHeader(stream: Stream) returns (name: Bytes, company: Bytes, points: nat)
      modifies stream
      ensures (name, company, points, stream.rest) == Ilda.ReadHeader(old(stream.rest))
    {
      ghost var b := stream.rest;
      name := stream.Raw(8);
      company := stream.Raw(8);
      points := stream.U16();
      stream.Skip(6);
      RestTwice(b, 8, 8);
    }

    method ReadPlace(stream: Stream, deep: bool) returns (at: Place)
      modifies stream
      ensures (at, stream.rest) == Ilda.ReadPlace(old(stream.rest), deep)
    {
      var x := stream.I16();
      var y := stream.I16();
      var z := 0;
      if deep {
        z := stream.I16();
      }
      at := Place(x, y, z);
    }

    method ReadFrameSection(stream: Stream, deep: bool) returns (frame: Option<Source>, outcome: Outcome)
      modifies this, stream
      ensures Is(frame, outcome, Now(), stream.rest, ReadIndexed(old(stream.rest), deep, old(Now())))
    {
      hide Ilda.ReadHeader, Ilda.ReadPlace, ReadU8, ReadRaws, Coloured, Paint, FrameOf, Follows;
      ghost var c := Now();
      var name, company, points := ReadHeader(stream);
      if points == 0 {
        return None, Eof;
      }
      ghost var all := ReadRaws(stream.rest, points, deep);
      FollowsStart(all);
      PaintNone(c);
      ghost var done: seq<RawPoint> := [];
      var data: seq<Point> := [];
      for i := 0 to points
        invariant Now() == c
        invariant |done| == |data| == i && Coloured(done, c) && data == Paint(done, c)
        invariant Follows(done, ReadRaws(stream.rest, points - i, deep), all)
      {
        RawsStep(done, stream.rest, points - i, deep, all);
        var at := ReadPlace(stream, deep);
        var state := stream.U8();
        var col := stream.U8();
        ghost var raw := RawPoint(at, state, col);
        if if trueColour then i >= |colour| else col >= |palette_| {
          NotColoured(all.0, i, c);
          return None, Fault;
        }
        var rgb := if trueColour then colour[i] else palette_[col];
        PaintStep(done, raw, c);
        done := done + [raw];
        data := data + [Point(at.x, at.y, at.z, Blanked(state), rgb.r, rgb.g, rgb.b)];
      }
      NoneLeft(stream.rest, deep);
      FollowsAll(done, ReadRaws(stream.rest, 0, deep), all);
      colour, trueColour := [], false;
      return Some(FrameOf(name, company, data)), Continue;
    }

    method ReadFormat5(stream: Stream, deep: bool) returns (frame: Option<Source>, outcome: Outcome)
      modifies stream
      ensures Is(frame, outcome, Now(), stream.rest, ReadColoured(old(stream.rest), deep, old(Now())))
    {
      hide Ilda.ReadHeader, Ilda.ReadPlace, ReadU8, ReadDirects, FrameOf, Follows;
      var name, company, points := ReadHeader(stream);
      if points == 0 {
        return None, Eof;
      }
      ghost var all := ReadDirects(stream.rest, points, deep);
      FollowsStart(all);
      var data: seq<Point> := [];
      for i := 0 to points
        invariant |data| == i
        invariant Follows(data, ReadDirects(stream.rest, points - i, deep), all)
      {
        DirectsStep(data, stream.rest, points - i, deep, all);
        var at := ReadPlace(stream, deep);
        var state := stream.U8();
        var b := stream.U8();
        var g := stream.U8();
        var r := stream.U8();
        data := data + [Point(at.x, at.y, at.z, Blanked(state), r, g, b)];
      }
      NoneLeft(stream.rest, deep);
      FollowsAll(data, ReadDirects(stream.rest, 0, deep), all);
      return Some(FrameOf(name, company, data)), Continue;
    }

    /** The loop of both colour tables. */
    method ReadColours(stream: Stream, n: nat) returns (table: seq<Rgb>)
      modifies stream
      ensures (table, stream.rest) == ReadRgbs(old(stream.rest), n)
    {
      hide ReadU8, ReadRgbs, Follows;
      ghost var all := ReadRgbs(stream.rest, n);
      FollowsStart(all);
      table := [];
      for i := 0 to n
        invariant |table| == i
        invariant Follows(table, ReadRgbs(stream.rest, n - i), all)
      {
        RgbsStep(table, stream.rest, n - i, all);
        var r := stream.U8();
        var g := stream.U8();
        var b := stream.U8();
        table := table + [Rgb(r, g, b)];
      }
      NoneLeft(stream.rest, true);
      FollowsAll(table, ReadRgbs(stream.rest, 0), all);
    }

    method ReadColorTable(stream: Stream) returns (outcome: Outcome)
      modifies this, stream
      ensures Is(None, outcome, Now(), stream.rest, ReadPalette(old(stream.rest), old(Now())))
    {
      ghost var b := stream.rest;
      var name := stream.Raw(8);
      var company := stream.Raw(8);
      RestTwice(b, 8, 8);
      var colours := stream.U16();
      ghost var b1 := stream.rest;
      stream.Skip(2);
      stream.Skip(4);
      RestTwice(b1, 2, 4);
      palette_ := ReadColours(stream, colours);
      outcome := Continue;
    }

    method ReadTrueColorSection(stream: Stream) returns (outcome: Outcome)
      modifies this, stream
      ensures Is(None, outcome, Now(), stream.rest, ReadTable(old(stream.rest), old(Now())))
    {
      var datalen := stream.U32();
      var points := stream.U32();
      if points > 0xFFFF {
        stream.Skip(AsInt((datalen as int) - 4));
        return Continue;
      }
      if points == 0 {
        return Eof;
      }
      colour := ReadColours(stream, points);
      trueColour := true;
      return Continue;
    }

    method ReadSection(stream: Stream, format: nat) returns (frame: Option<Source>, outcome: Outcome)
      modifies this, stream
      ensures Is(frame, outcome, Now(), stream.rest, ReadBody(format, old(stream.rest), old(Now())))
    {
      hide ReadIndexed, ReadColoured, ReadPalette, ReadTable;
      frame := None;
      match format
      case 0 => frame, outcome := ReadFrameSection(stream, true);
      case 1 => frame, outcome := ReadFrameSection(stream, false);
      case 2 => outcome := ReadColorTable(stream);
      case 3 => outcome := ReadTrueColorSection(stream);
      case 4 => frame, outcome := ReadFormat5(stream, true);
      case 5 => frame, outcome := ReadFormat5(stream, false);
      case _ =>
        var dataLength := stream.U32();
        var numberOfPoints := stream.U32();
        stream.Skip(AsInt(dataLength));
        outcome := Continue;
    }

    /** The tables a load starts from: the default palette, filled up with black. */
    method LoadDefaults(defaults: seq<Rgb>)
      modifies this
      ensures Now() == Initial(defaults)
    {
      palette_, colour, trueColour := [], [], false;
      for i := 0 to |defaults|
        invariant palette_ == defaults[..i] && colour == [] && !trueColour
      {
        palette_ := palette_ + [defaults[i]];
      }
      assert defaults[..|defaults|] == defaults;
      var i := |palette_|;
      while i < PALETTE_SIZE
        invariant i == |palette_| && colour == [] && !trueColour
        invariant palette_ == defaults + seq(i - |defaults|, _ => BLACK)
        invariant i <= PALETTE_SIZE || palette_ == defaults
      {
        palette_ := palette_ + [BLACK];
        i := i + 1;
      }
    }

    /** Loads a file with one of the two default palettes. The result is the tree over exactly the frames found. */
    method Load(file: string, content: Option<Bytes>, defaults: seq<Rgb>)
      returns (result: Option<Source>, error: nat, fault: bool)
      modifies this
      ensures content.None? ==> result.None? && error == 1 && !fault
      ensures content.Some? ==> fault == LoadFrom(content.value, Initial(defaults), []).Aborted?
      ensures content.Some? && !fault ==>
                var loading := LoadFrom(content.value, Initial(defaults), []);
                result == Wrap(loading.frames, file) && error == loading.error
    {
      if content.None? {
        return None, 1, false;
      }
      error, fault := 0, false;
      LoadDefaults(defaults);
      var frame: Option<Source>, sequence: Option<Source> := None, None;
      hide LoadFrom, ReadBody, ReadU32, Built, AddChild, Padded, MAGIC, NEW_SEQUENCER;
      var stream := new Stream(content.value);
      var eof := false;
      ghost var frames: seq<Source> := [];
      ghost var goal := LoadFrom(stream.rest, Now(), []);
      BuiltNone(file);
      while stream.rest != [] && !eof
        invariant fresh(stream) && error == 0
        invariant Built(frames, frame, sequence, file)
        invariant goal == if eof then Loaded(frames, 0) else LoadFrom(stream.rest, Now(), frames)
        decreases |stream.rest|, !eof
      {
        ghost var b, c := stream.rest, Now();
        var magic := stream.Raw(4);
        if magic != MAGIC {
          LoadStops(b, c, frames);
          error := 2;
          break;
        }
        var format := stream.U32();
        ghost var body := stream.rest;
        var fr, outcome := ReadSection(stream, format);
        LoadStep(b, c, frames);
        if outcome == Fault {
          palette_, colour := [], [];
          return None, 0, true;
        }
        eof := outcome == Eof;
        if fr.Some? {
          BuiltStep(frames, frame, sequence, fr.value, file);
          frames := frames + [fr.value];
          if sequence.Some? {
            sequence := Some(AddChild(sequence.value, fr.value, -1).0);
          } else if frame.None? {
            frame := fr;
          } else {
            sequence := Some(WithDesc(NEW_SEQUENCER, FROM + file));
            sequence := Some(AddChild(sequence.value, frame.value, -1).0);
            sequence := Some(AddChild(sequence.value, fr.value, -1).0);
          }
        }
      }
      if stream.rest == [] && !eof {
        LoadEnds(Now(), frames);
      }
      BuiltResult(frames, frame, sequence, file);
      palette_, colour := [], [];
      if sequence.Some? {
        result := Some(AddChild(NEW_ROTATOR, sequence.value, -1).0);
      } else {
        result := frame;
      }
    }
  }

  /** The outcome of reading a section is that section. */
  ghost predicate Is(frame: Option<Source>, outcome: Outcome, c: Colours, rest: Bytes, s: Section) {
    if s.OutOfTable? then outcome == Fault
    else outcome == (if s.last then Eof else Continue) && s == Section(frame, s.last, c, rest)
  }

  lemma RestTwice(b: Bytes, m: nat, n: nat)
    ensures Rest(Rest(b, m), n) == Rest(b, m + n)
  {
  }

  /** The items read so far and those still to come are all the items. */
  ghost predicate Follows<T>(done: seq<T>, todo: (seq<T>, Bytes), all: (seq<T>, Bytes)) {
    done + todo.0 == all.0 && todo.1 == all.1
  }

  lemma FollowsStart<T>(all: (seq<T>, Bytes))
    ensures Follows([], all, all)
  {
    assert [] + all.0 == all.0;
  }

  lemma FollowsStep<T>(done: seq<T>, x: T, before: (seq<T>, Bytes), after: (seq<T>, Bytes), all: (seq<T>, Bytes))
    requires Follows(done, before, all) && before == ([x] + after.0, after.1)
    ensures Follows(done + [x], after, all) && |done| < |all.0| && all.0[|done|] == x
  {
    assert done + ([x] + after.0) == (done + [x]) + after.0;
  }

  lemma RawsStep(done: seq<RawPoint>, b: Bytes, n: nat, deep: bool, all: (seq<RawPoint>, Bytes))
    requires n > 0 && Follows(done, ReadRaws(b, n, deep), all)
    ensures var (r, b1) := ReadRaw(b, deep);
            Follows(done + [r], ReadRaws(b1, n - 1, deep), all) && |done| < |all.0| && all.0[|done|] == r
  {
    hide Follows, ReadRaw;
    var (r, b1) := ReadRaw(b, deep);
    FollowsStep(done, r, ReadRaws(b, n, deep), ReadRaws(b1, n - 1, deep), all);
  }

  lemma DirectsStep(done: seq<Point>, b: Bytes, n: nat, deep: bool, all: (seq<Point>, Bytes))
    requires n > 0 && Follows(done, ReadDirects(b, n, deep), all)
    ensures var (r, b1) := ReadDirect(b, deep);
            Follows(done + [r], ReadDirects(b1, n - 1, deep), all)
  {
    hide Follows, ReadDirect;
    var (r, b1) := ReadDirect(b, deep);
    FollowsStep(done, r, ReadDirects(b, n, deep), ReadDirects(b1, n - 1, deep), all);
  }

  lemma RgbsStep(done: seq<Rgb>, b: Bytes, n: nat, all: (seq<Rgb>, Bytes))
    requires n > 0 && Follows(done, ReadRgbs(b, n), all)
    ensures var (r, b1) := ReadRgb(b);
            Follows(done + [r], ReadRgbs(b1, n - 1), all)
  {
    hide Follows, ReadRgb;
    var (r, b1) := ReadRgb(b);
    FollowsStep(done, r, ReadRgbs(b, n), ReadRgbs(b1, n - 1), all);
  }

  lemma NoneLeft(b: Bytes, deep: bool)
    ensures ReadRaws(b, 0, deep) == ([], b) && ReadDirects(b, 0, deep) == ([], b) && ReadRgbs(b, 0) == ([], b)
  {
  }

  lemma FollowsAll<T>(done: seq<T>, todo: (seq<T>, Bytes), all: (seq<T>, Bytes))
    requires Follows(done, todo, all) && todo.0 == []
    ensures all == (done, todo.1)
  {
    assert done + [] == done;
  }

  lemma NotColoured(raws: seq<RawPoint>, i: nat, c: Colours)
    requires i < |raws| && if c.trueColour then i >= |c.table| else raws[i].colour >= |c.palette|
    ensures !Coloured(raws, c)
  {
  }

  lemma PaintNone(c: Colours)
    ensures Coloured([], c) && Paint([], c) == []
  {
  }

  lemma PaintStep(done: seq<RawPoint>, raw: RawPoint, c: Colours)
    requires Coloured(done, c) && if c.trueColour then |done| < |c.table| else raw.colour < |c.palette|
    ensures Coloured(done + [raw], c)
    ensures Paint(done + [raw], c) == Paint(done, c) + [PointOf(raw, ColourOf(raw, |done|, c))]
  {
  }

  /** The variables of the loader that stand for the frames found so far. */
  ghost predicate Built(frames: seq<Source>, frame: Option<Source>, sequence: Option<Source>, file: string) {
    frame == (if frames == [] then None else Some(frames[0]))
    && sequence == if |frames| < 2 then None else Some(WithDesc(WithKids(NEW_SEQUENCER, frames), FROM + file))
  }

  lemma BuiltNone(file: string)
    ensures Built([], None, None, file)
  {
  }

  lemma BuiltStep(frames: seq<Source>, frame: Option<Source>, sequence: Option<Source>, fr: Source, file: string)
    requires Built(frames, frame, sequence, file)
    ensures (sequence.Some? <==> |frames| >= 2) && (frame.None? <==> frames == [])
    ensures |frames| >= 2 ==> Built(frames + [fr], frame, Some(AddChild(sequence.value, fr, -1).0), file)
    ensures |frames| == 1 ==>
              var first := AddChild(WithDesc(NEW_SEQUENCER, FROM + file), frame.value, -1).0;
              Built(frames + [fr], frame, Some(AddChild(first, fr, -1).0), file)
    ensures |frames| == 0 ==> Built([fr], Some(fr), sequence, file) && frames + [fr] == [fr]
  {
    if |frames| >= 2 {
      assert frames[..|frames|] + [fr] + frames[|frames|..] == frames + [fr];
    } else if |frames| == 1 {
      assert [][..0] + [frames[0]] + [][0..] == frames;
      assert frames[..1] + [fr] + frames[1..] == frames + [fr];
    }
  }

  lemma BuiltResult(frames: seq<Source>, frame: Option<Source>, sequence: Option<Source>, file: string)
    requires Built(frames, frame, sequence, file)
    ensures Wrap(frames, file)
         == if sequence.Some? then Some(AddChild(NEW_ROTATOR, sequence.value, -1).0) else frame
  {
    if sequence.Some? {
      assert [][..0] + [sequence.value] + [][0..] == [sequence.value];
    }
  }

  lemma LoadStops(b: Bytes, c: Colours, frames: seq<Source>)
    requires b != [] && Taken(b, 4) != MAGIC
    ensures LoadFrom(b, c, frames) == Loaded(frames, 2)
  {
  }

  lemma LoadEnds(c: Colours, frames: seq<Source>)
    ensures LoadFrom([], c, frames) == Loaded(frames, 0)
  {
  }
}
