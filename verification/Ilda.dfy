/** Loading an ILDA file: a section loop over a byte stream that collects frames, colours them from a palette or a
    true-colour table, and wraps them as one tree. */
module Ilda {
  import opened Wrappers
  import opened Sources
  import opened PointCodec

  type Bytes = seq<U8>

  // Reading numbers off the front of a stream; past its end numbers read as zero

  function Rest(b: Bytes, n: nat): Bytes {
    if n <= |b| then b[n..] else []
  }

  function ReadU8(b: Bytes): (U8, Bytes) {
    if b == [] then (0, []) else (b[0], b[1..])
  }

  function ReadU16(b: Bytes): (nat, Bytes) {
    var n: nat := if |b| < 2 then 0 else (b[0] as nat) * 0x100 + b[1];
    (n, Rest(b, 2))
  }

  function ReadI16(b: Bytes): (I16, Bytes) {
    var v: I16 := if |b| < 2 then 0 else Short(b[0], b[1]);
    (v, Rest(b, 2))
  }

  function ReadU32(b: Bytes): (r: (nat, Bytes))
    ensures |r.1| <= |b|
  {
    var n: nat := if |b| < 4 then 0
                  else (b[0] as nat) * 0x100_0000 + (b[1] as nat) * 0x1_0000 + (b[2] as nat) * 0x100 + b[3];
    (n, Rest(b, 4))
  }

  function Taken(b: Bytes, n: nat): Bytes {
    if n <= |b| then b[..n] else b
  }

  // Points and colours

  /** A point of an indexed frame as it is in the file; a two-dimensional one has no z. */
  datatype RawPoint = RawPoint(at: Place, state: U8, colour: U8)

  const BLANKED_BIT := 64

  function Blanked(state: U8): bool {
    (state / BLANKED_BIT) % 2 == 1
  }

  datatype Place = Place(x: I16, y: I16, z: I16)

  function ReadPlace(b: Bytes, deep: bool): (r: (Place, Bytes))
    ensures |r.1| <= |b|
  {
    var (x, b1) := ReadI16(b);
    var (y, b2) := ReadI16(b1);
    if !deep then (Place(x, y, 0), b2)
    else
      var (z, b3) := ReadI16(b2);
      (Place(x, y, z), b3)
  }

  function ReadRaw(b: Bytes, deep: bool): (r: (RawPoint, Bytes))
    ensures |r.1| <= |b|
  {
    var (at, b1) := ReadPlace(b, deep);
    var (state, b2) := ReadU8(b1);
    var (col, b3) := ReadU8(b2);
    (RawPoint(at, state, col), b3)
  }

  function ReadRgb(b: Bytes): (r: (Rgb, Bytes))
    ensures |r.1| <= |b|
  {
    var (r, b1) := ReadU8(b);
    var (g, b2) := ReadU8(b1);
    var (bl, b3) := ReadU8(b2);
    (Rgb(r, g, bl), b3)
  }

  /** A point of a true-colour frame: its colour comes blue first. */
  function ReadDirect(b: Bytes, deep: bool): (r: (Point, Bytes))
    ensures |r.1| <= |b|
  {
    var (at, b1) := ReadPlace(b, deep);
    var (state, b2) := ReadU8(b1);
    var (blue, b3) := ReadU8(b2);
    var (green, b4) := ReadU8(b3);
    var (red, b5) := ReadU8(b4);
    (Point(at.x, at.y, at.z, Blanked(state), red, green, blue), b5)
  }

  function ReadRaws(b: Bytes, n: nat, deep: bool): (r: (seq<RawPoint>, Bytes))
    ensures |r.0| == n && |r.1| <= |b|
    decreases n
  {
    if n == 0 then ([], b)
    else
      var (p, b1) := ReadRaw(b, deep);
      var (ps, b2) := ReadRaws(b1, n - 1, deep);
      ([p] + ps, b2)
  }

  function ReadRgbs(b: Bytes, n: nat): (r: (seq<Rgb>, Bytes))
    ensures |r.0| == n && |r.1| <= |b|
    decreases n
  {
    if n == 0 then ([], b)
    else
      var (c, b1) := ReadRgb(b);
      var (cs, b2) := ReadRgbs(b1, n - 1);
      ([c] + cs, b2)
  }

  function ReadDirects(b: Bytes, n: nat, deep: bool): (r: (seq<Point>, Bytes))
    ensures |r.0| == n && |r.1| <= |b|
    decreases n
  {
    if n == 0 then ([], b)
    else
      var (p, b1) := ReadDirect(b, deep);
      var (ps, b2) := ReadDirects(b1, n - 1, deep);
      ([p] + ps, b2)
  }

  // The loader's state and its sections

  /** The current palette, and the colours of the last true-colour table while they wait for a frame. */
  datatype Colours = Colours(palette: seq<Rgb>, table: seq<Rgb>, trueColour: bool)

  const BLACK := Rgb(0, 0, 0)
  const PALETTE_SIZE := 256

  /** The default palette, filled up with black. */
  function Padded(defaults: seq<Rgb>): (p: seq<Rgb>)
    ensures |p| >= PALETTE_SIZE && defaults <= p
  {
    if |defaults| >= PALETTE_SIZE then defaults
    else defaults + seq(PALETTE_SIZE - |defaults|, _ => BLACK)
  }

  function Initial(defaults: seq<Rgb>): Colours {
    Colours(Padded(defaults), [], false)
  }

  /** Every colour a frame needs is there; otherwise the program reads outside its table. */
  predicate Coloured(raws: seq<RawPoint>, c: Colours) {
    if c.trueColour then |raws| <= |c.table|
    else forall i | 0 <= i < |raws| :: raws[i].colour < |c.palette|
  }

  function ColourOf(raw: RawPoint, i: nat, c: Colours): Rgb
    requires if c.trueColour then i < |c.table| else raw.colour < |c.palette|
  {
    if c.trueColour then c.table[i] else c.palette[raw.colour]
  }

  function PointOf(raw: RawPoint, colour: Rgb): Point {
    Point(raw.at.x, raw.at.y, raw.at.z, Blanked(raw.state), colour.r, colour.g, colour.b)
  }

  function Paint(raws: seq<RawPoint>, c: Colours): (ps: seq<Point>)
    requires Coloured(raws, c)
    ensures |ps| == |raws|
  {
    seq(|raws|, i requires 0 <= i < |raws| => PointOf(raws[i], ColourOf(raws[i], i, c)))
  }

  /** Eight bytes as a C string. */
  function CString(b: Bytes): string
    decreases |b|
  {
    if b == [] || b[0] == 0 then [] else [b[0] as char] + CString(b[1..])
  }

  function FrameOf(name: Bytes, company: Bytes, data: seq<Point>): Source {
    Static("ILDA: " + CString(name) + " By " + CString(company), data, false, 100, 1)
  }

  /** The result of one section: a frame or none, whether the loop ends here, and what follows; or a read outside a
      colour table. */
  datatype Section = Section(frame: Option<Source>, last: bool, colours: Colours, rest: Bytes) | OutOfTable

  /** The header of a frame: two names and the number of points. */
  function ReadHeader(b: Bytes): (r: (Bytes, Bytes, nat, Bytes))
    ensures |r.3| <= |b|
  {
    var (points, b1) := ReadU16(Rest(b, 16));
    (Taken(b, 8), Taken(Rest(b, 8), 8), points, Rest(b1, 6))
  }

  /** readFrameSection: formats 0 and 1. A frame without points ends the file; any other uses up a true-colour table. */
  function ReadIndexed(b: Bytes, deep: bool, c: Colours): (s: Section)
    ensures s.Section? ==> |s.rest| <= |b|
  {
    var (name, company, n, b1) := ReadHeader(b);
    if n == 0 then Section(None, true, c, b1)
    else
      var (raws, b2) := ReadRaws(b1, n, deep);
      if Coloured(raws, c) then
        Section(Some(FrameOf(name, company, Paint(raws, c))), false, c.(table := [], trueColour := false), b2)
      else OutOfTable
  }

  /** readFormat5: formats 4 and 5. */
  function ReadColoured(b: Bytes, deep: bool, c: Colours): (s: Section)
    ensures s.Section? ==> |s.rest| <= |b|
  {
    var (name, company, n, b1) := ReadHeader(b);
    if n == 0 then Section(None, true, c, b1)
    else
      var (data, b2) := ReadDirects(b1, n, deep);
      Section(Some(FrameOf(name, company, data)), false, c, b2)
  }

  /** readColorTable: format 2. */
  function ReadPalette(b: Bytes, c: Colours): (s: Section)
    ensures s.Section? ==> |s.rest| <= |b|
  {
    var (n, b1) := ReadU16(Rest(b, 16));
    var (palette, b2) := ReadRgbs(Rest(b1, 6), n);
    Section(None, false, c.(palette := palette), b2)
  }

  /** readTrueColorSection: format 3, which is not part of the standard. */
  function ReadTable(b: Bytes, c: Colours): (s: Section)
    ensures s.Section? ==> |s.rest| <= |b|
  {
    var (length, b1) := ReadU32(b);
    var (n, b2) := ReadU32(b1);
    if n > 0xFFFF then Section(None, false, c, SkipSigned(b2, AsInt(length - 4)))
    else if n == 0 then Section(None, true, c, b2)
    else
      var (table, b3) := ReadRgbs(b2, n);
      Section(None, false, c.(table := table, trueColour := true), b3)
  }

  /** A 32-bit number used as a signed one; skipping a negative number of bytes is taken to do nothing. */
  function AsInt(n: int): int {
    var u := n % 0x1_0000_0000;
    if u < 0x8000_0000 then u else u - 0x1_0000_0000
  }

  function SkipSigned(b: Bytes, n: int): Bytes {
    if n < 0 then b else Rest(b, n)
  }

  function ReadUnknown(b: Bytes, c: Colours): (s: Section)
    ensures s.Section? ==> |s.rest| <= |b|
  {
    var (length, b1) := ReadU32(b);
    var (_, b2) := ReadU32(b1);
    Section(None, false, c, SkipSigned(b2, AsInt(length)))
  }

  function ReadBody(format: nat, b: Bytes, c: Colours): (s: Section)
    ensures s.Section? ==> |s.rest| <= |b|
  {
    match format
    case 0 => ReadIndexed(b, true, c)
    case 1 => ReadIndexed(b, false, c)
    case 2 => ReadPalette(b, c)
    case 3 => ReadTable(b, c)
    case 4 => ReadColoured(b, true, c)
    case 5 => ReadColoured(b, false, c)
    case _ => ReadUnknown(b, c)
  }

  const MAGIC: Bytes := [73, 76, 68, 65]

  /** The frames of a file in order and the error number, or a read outside a colour table. */
  datatype Loading = Loaded(frames: seq<Source>, error: nat) | Aborted

  /** The section loop of Ildaloader::load, from a position, with the frames found so far. */
  function LoadFrom(b: Bytes, c: Colours, frames: seq<Source>): Loading
    decreases |b|
  {
    if b == [] then Loaded(frames, 0)
    else if Taken(b, 4) != MAGIC then Loaded(frames, 2)
    else
      var (format, body) := ReadU32(b[4..]);
      match ReadBody(format, body, c)
      case OutOfTable => Aborted
      case Section(frame, last, c1, rest) =>
        var more := if frame.Some? then frames + [frame.value] else frames;
        if last then Loaded(more, 0) else LoadFrom(rest, c1, more)
  }

  function Continued(s: Section, frames: seq<Source>): Loading {
    if s.OutOfTable? then Aborted
    else
      var more := if s.frame.Some? then frames + [s.frame.value] else frames;
      if s.last then Loaded(more, 0) else LoadFrom(s.rest, s.colours, more)
  }

  /** One turn of the section loop. */
  lemma LoadStep(b: Bytes, c: Colours, frames: seq<Source>)
    requires b != [] && Taken(b, 4) == MAGIC
    ensures var (format, body) := ReadU32(Rest(b, 4));
            |body| < |b| && LoadFrom(b, c, frames) == Continued(ReadBody(format, body, c), frames)
  {
    hide ReadBody, ReadU32;
    assert |b| >= 4;
  }

  const FROM := "ILDA File import from : "

  /** What load returns for the frames it has found: nothing, the frame, or all of them in a sequencer under a
      colour rotator. */
  function Wrap(frames: seq<Source>, file: string): Option<Source> {
    if |frames| == 0 then None
    else if |frames| == 1 then Some(frames[0])
    else Some(WithKids(NEW_ROTATOR, [WithDesc(WithKids(NEW_SEQUENCER, frames), FROM + file)]))
  }

  // Files

  /** What a header says besides the number of points or colours: two names, and six bytes that the loader skips. In
      the format these hold the number of the frame, the number of frames, and the projector. */
  datatype Head = Head(name: Bytes, company: Bytes, skipped: Bytes)

  predicate HeadOk(h: Head) {
    |h.name| == |h.company| == 8 && |h.skipped| == 6
  }

  /** A point of a true-colour frame as it is in the file. */
  datatype DirectPoint = DirectPoint(at: Place, state: U8, colour: Rgb)

  /** The sections of a well-formed file; the last two kinds are skipped. */
  datatype Part =
    | Indexed(deep: bool, head: Head, raws: seq<RawPoint>)
    | Direct(deep: bool, head: Head, data: seq<DirectPoint>)
    | Palette(head: Head, colours: seq<Rgb>)
    | Table(length: nat, colours: seq<Rgb>)
    | Oversized(count: nat, content: Bytes)
    | Unknown(format: nat, count: nat, content: Bytes)

  predicate PartOk(p: Part) {
    match p
    case Indexed(deep, head, raws) =>
      HeadOk(head) && 0 < |raws| < 0x1_0000 && (deep || forall r | r in raws :: r.at.z == 0)
    case Direct(deep, head, data) =>
      HeadOk(head) && 0 < |data| < 0x1_0000 && (deep || forall p | p in data :: p.at.z == 0)
    case Palette(head, colours) => HeadOk(head) && |colours| < 0x1_0000
    case Table(length, colours) => length < 0x1_0000_0000 && 0 < |colours| < 0x1_0000
    case Oversized(count, content) => 0xFFFF < count < 0x1_0000_0000 && |content| < 0x8000_0000
    case Unknown(format, count, content) =>
      5 < format < 0x1_0000_0000 && count < 0x1_0000_0000 && |content| < 0x8000_0000
  }

  function Put16(n: nat): Bytes
    requires n < 0x1_0000
  {
    [n / 0x100, n % 0x100]
  }

  function Put32(n: nat): Bytes
    requires n < 0x1_0000_0000
  {
    [n / 0x100_0000, (n / 0x1_0000) % 0x100, (n / 0x100) % 0x100, n % 0x100]
  }

  /** Each Put function writes its item in front of what follows. */
  function PutI16(v: I16, t: Bytes): Bytes {
    [HighByte(v), LowByte(v)] + t
  }

  function PutPlace(at: Place, deep: bool, t: Bytes): Bytes {
    PutI16(at.x, PutI16(at.y, if deep then PutI16(at.z, t) else t))
  }

  function PutRaws(raws: seq<RawPoint>, deep: bool, t: Bytes): Bytes {
    if raws == [] then t
    else PutPlace(raws[0].at, deep, [raws[0].state, raws[0].colour] + PutRaws(raws[1..], deep, t))
  }

  function PutDirects(data: seq<DirectPoint>, deep: bool, t: Bytes): Bytes {
    if data == [] then t
    else
      var p := data[0];
      PutPlace(p.at, deep, [p.state, p.colour.b, p.colour.g, p.colour.r] + PutDirects(data[1..], deep, t))
  }

  function PutRgbs(colours: seq<Rgb>, t: Bytes): Bytes {
    if colours == [] then t else [colours[0].r, colours[0].g, colours[0].b] + PutRgbs(colours[1..], t)
  }

  function PutHeader(head: Head, n: nat, t: Bytes): Bytes
    requires n < 0x1_0000
  {
    head.name + (head.company + (Put16(n) + (head.skipped + t)))
  }

  function Format(p: Part): nat {
    match p
    case Indexed(deep, _, _) => if deep then 0 else 1
    case Palette(_, _) => 2
    case Table(_, _) => 3
    case Oversized(_, _) => 3
    case Direct(deep, _, _) => if deep then 4 else 5
    case Unknown(format, _, _) => format
  }

  function PutBody(p: Part, t: Bytes): Bytes
    requires PartOk(p)
  {
    match p
    case Indexed(deep, head, raws) => PutHeader(head, |raws|, PutRaws(raws, deep, t))
    case Direct(deep, head, data) => PutHeader(head, |data|, PutDirects(data, deep, t))
    case Palette(head, colours) => PutHeader(head, |colours|, PutRgbs(colours, t))
    case Table(length, colours) => Put32(length) + (Put32(|colours|) + PutRgbs(colours, t))
    case Oversized(count, content) => Put32(|content| + 4) + (Put32(count) + (content + t))
    case Unknown(_, count, content) => Put32(|content|) + (Put32(count) + (content + t))
  }

  function PutSection(format: nat, body: Bytes): Bytes
    requires format < 0x1_0000_0000
  {
    MAGIC + (Put32(format) + body)
  }

  predicate PartsOk(parts: seq<Part>) {
    forall i | 0 <= i < |parts| :: PartOk(parts[i])
  }

  function Put(parts: seq<Part>, t: Bytes): Bytes
    requires PartsOk(parts)
  {
    if parts == [] then t else PutSection(Format(parts[0]), PutBody(parts[0], Put(parts[1..], t)))
  }

  // What a file means

  /** The colours that hold after a section: a palette holds until the next one, a true-colour table until the next
      indexed frame. */
  function After(p: Part, c: Colours): Colours {
    match p
    case Indexed(_, _, _) => c.(table := [], trueColour := false)
    case Palette(_, colours) => c.(palette := colours)
    case Table(_, colours) => c.(table := colours, trueColour := true)
    case _ => c
  }

  function Shown(p: Part, c: Colours): seq<Source>
    requires p.Indexed? ==> Coloured(p.raws, c)
  {
    match p
    case Indexed(_, head, raws) => [FrameOf(head.name, head.company, Paint(raws, c))]
    case Direct(_, head, data) => [FrameOf(head.name, head.company, Points(data))]
    case _ => []
  }

  /** The points of a true-colour frame: of its state only the blanking bit matters. */
  function Points(data: seq<DirectPoint>): (ps: seq<Point>)
    ensures |ps| == |data|
  {
    seq(|data|, i requires 0 <= i < |data| => DirectOf(data[i]))
  }

  function DirectOf(p: DirectPoint): Point {
    Point(p.at.x, p.at.y, p.at.z, Blanked(p.state), p.colour.r, p.colour.g, p.colour.b)
  }

  /** The frames in file order, each in the colours that hold where it stands; None if one has no colour to take. */
  function Frames(parts: seq<Part>, c: Colours): Option<seq<Source>> {
    if parts == [] then Some([])
    else if parts[0].Indexed? && !Coloured(parts[0].raws, c) then None
    else
      var rest := Frames(parts[1..], After(parts[0], c));
      if rest.None? then None else Some(Shown(parts[0], c) + rest.value)
  }

  function AfterAll(parts: seq<Part>, c: Colours): Colours {
    if parts == [] then c else AfterAll(parts[1..], After(parts[0], c))
  }

  // Reading back what was written

  lemma RestOf(a: Bytes, t: Bytes)
    ensures Rest(a + t, |a|) == t && Taken(a + t, |a|) == a
  {
  }

  lemma RestIs(b: Bytes, n: nat)
    ensures n <= |b| ==> Rest(b, n) == b[n..]
  {
  }

  lemma ReadPut16(n: nat, t: Bytes)
    requires n < 0x1_0000
    ensures ReadU16(Put16(n) + t) == (n, t)
  {
    RestOf(Put16(n), t);
  }

  lemma ReadPutI16(v: I16, t: Bytes)
    ensures ReadI16(PutI16(v, t)) == (v, t)
  {
    ShortOfBytes(v);
    RestOf([HighByte(v), LowByte(v)], t);
  }

  lemma ReadPut32(n: nat, t: Bytes)
    requires n < 0x1_0000_0000
    ensures ReadU32(Put32(n) + t) == (n, t)
  {
    RestOf(Put32(n), t);
    assert n / 0x1_0000 == (n / 0x100_0000) * 0x100 + (n / 0x1_0000) % 0x100;
    assert n / 0x100 == (n / 0x1_0000) * 0x100 + (n / 0x100) % 0x100;
  }

  lemma ReadPutPlace(at: Place, deep: bool, t: Bytes)
    requires deep || at.z == 0
    ensures ReadPlace(PutPlace(at, deep, t), deep) == (at, t)
  {
    var t2 := if deep then PutI16(at.z, t) else t;
    ReadPutI16(at.x, PutI16(at.y, t2));
    ReadPutI16(at.y, t2);
    ReadPutI16(at.z, t);
    hide ReadI16, PutI16;
  }

  lemma ReadBytes2(a: U8, b: U8, t: Bytes)
    ensures ReadU8([a, b] + t) == (a, [b] + t) && ReadU8([b] + t) == (b, t)
  {
    assert ([a, b] + t)[1..] == [b] + t;
  }

  lemma ReadBytes4(a: U8, b: U8, c: U8, d: U8, t: Bytes)
    ensures ReadU8([a, b, c, d] + t) == (a, [b, c, d] + t)
    ensures ReadU8([b, c, d] + t) == (b, [c, d] + t)
  {
    assert ([a, b, c, d] + t)[1..] == [b, c, d] + t;
    assert ([b, c, d] + t)[1..] == [c, d] + t;
  }

  lemma {:induction false} ReadPutRaws(raws: seq<RawPoint>, deep: bool, t: Bytes)
    requires deep || forall r | r in raws :: r.at.z == 0
    ensures ReadRaws(PutRaws(raws, deep, t), |raws|, deep) == (raws, t)
  {
    if raws != [] {
      var r, more := raws[0], PutRaws(raws[1..], deep, t);
      ReadPutPlace(r.at, deep, [r.state, r.colour] + more);
      ReadBytes2(r.state, r.colour, more);
      ReadPutRaws(raws[1..], deep, t);
      hide ReadPlace, PutPlace, ReadU8;
      assert raws == [r] + raws[1..];
    }
  }

  lemma ReadPutDirect(p: DirectPoint, deep: bool, t: Bytes)
    requires deep || p.at.z == 0
    ensures ReadDirect(PutPlace(p.at, deep, [p.state, p.colour.b, p.colour.g, p.colour.r] + t), deep)
         == (DirectOf(p), t)
  {
    hide ReadPlace, PutPlace, ReadU8;
    var c := p.colour;
    ReadPutPlace(p.at, deep, [p.state, c.b, c.g, c.r] + t);
    ReadBytes4(p.state, c.b, c.g, c.r, t);
    ReadBytes2(c.g, c.r, t);
  }

  lemma {:induction false} ReadPutDirects(data: seq<DirectPoint>, deep: bool, t: Bytes)
    requires deep || forall p | p in data :: p.at.z == 0
    ensures ReadDirects(PutDirects(data, deep, t), |data|, deep) == (Points(data), t)
  {
    if data != [] {
      hide ReadDirect, PutPlace, DirectOf, Points;
      ReadPutDirect(data[0], deep, PutDirects(data[1..], deep, t));
      ReadPutDirects(data[1..], deep, t);
      PointsSplit(data);
    } else {
      assert Points(data) == [];
    }
  }

  lemma PointsSplit(data: seq<DirectPoint>)
    requires data != []
    ensures Points(data) == [DirectOf(data[0])] + Points(data[1..])
  {
  }

  lemma {:induction false} ReadPutRgbs(colours: seq<Rgb>, t: Bytes)
    ensures ReadRgbs(PutRgbs(colours, t), |colours|) == (colours, t)
  {
    if colours != [] {
      var c, more := colours[0], PutRgbs(colours[1..], t);
      ReadBytes4(0, c.r, c.g, c.b, more);
      ReadBytes2(c.g, c.b, more);
      ReadPutRgbs(colours[1..], t);
      hide ReadU8;
      assert colours == [c] + colours[1..];
    }
  }

  lemma ReadPutHeader(head: Head, n: nat, t: Bytes)
    requires HeadOk(head) && n < 0x1_0000
    ensures ReadHeader(PutHeader(head, n, t)) == (head.name, head.company, n, t)
    ensures ReadU16(Rest(PutHeader(head, n, t), 16)) == (n, head.skipped + t)
    ensures Rest(head.skipped + t, 6) == t
  {
    var b1 := head.skipped + t;
    var b2 := Put16(n) + b1;
    RestOf(head.name, head.company + b2);
    RestOf(head.company, b2);
    assert head.name + (head.company + b2) == (head.name + head.company) + b2;
    RestOf(head.name + head.company, b2);
    ReadPut16(n, b1);
    RestOf(head.skipped, t);
    hide Rest, Taken, ReadU16, Put16;
  }

  /** One section read back: its frame, the colours after it, and what follows it. */
  lemma ReadPutBody(p: Part, t: Bytes, c: Colours)
    requires PartOk(p)
    ensures ReadBody(Format(p), PutBody(p, t), c)
         == if p.Indexed? && !Coloured(p.raws, c) then OutOfTable
            else Section(if Shown(p, c) == [] then None else Some(Shown(p, c)[0]), false, After(p, c), t)
  {
    hide PutHeader, PutRaws, PutDirects, PutRgbs, Put32, ReadRaws, ReadDirects, ReadRgbs, ReadU32, ReadU16, Rest;
    hide Coloured, Paint, Points, FrameOf, ReadHeader;
    match p
    case Indexed(deep, head, raws) =>
      ReadPutHeader(head, |raws|, PutRaws(raws, deep, t));
      ReadPutRaws(raws, deep, t);
    case Direct(deep, head, data) =>
      ReadPutHeader(head, |data|, PutDirects(data, deep, t));
      ReadPutDirects(data, deep, t);
    case Palette(head, colours) =>
      ReadPutHeader(head, |colours|, PutRgbs(colours, t));
      ReadPutRgbs(colours, t);
    case Table(length, colours) =>
      ReadPut32(length, Put32(|colours|) + PutRgbs(colours, t));
      ReadPut32(|colours|, PutRgbs(colours, t));
      ReadPutRgbs(colours, t);
    case Oversized(count, content) =>
      ReadPut32(|content| + 4, Put32(count) + (content + t));
      ReadPut32(count, content + t);
      RestOf(content, t);
    case Unknown(format, count, content) =>
      ReadPut32(|content|, Put32(count) + (content + t));
      ReadPut32(count, content + t);
      RestOf(content, t);
  }

  lemma ReadPutSection(format: nat, body: Bytes)
    requires format < 0x1_0000_0000
    ensures var b := PutSection(format, body); Taken(b, 4) == MAGIC && |b| > 4 && ReadU32(b[4..]) == (format, body)
  {
    RestOf(MAGIC, Put32(format) + body);
    ReadPut32(format, body);
  }

  /** The section loop takes one turn for a well-formed section. */
  lemma LoadPutFirst(p: Part, t: Bytes, c: Colours, frames: seq<Source>)
    requires PartOk(p)
    ensures LoadFrom(PutSection(Format(p), PutBody(p, t)), c, frames)
         == if p.Indexed? && !Coloured(p.raws, c) then Aborted else LoadFrom(t, After(p, c), frames + Shown(p, c))
  {
    var b := PutSection(Format(p), PutBody(p, t));
    ReadPutSection(Format(p), PutBody(p, t));
    ReadPutBody(p, t, c);
    RestIs(b, 4);
    LoadStep(b, c, frames);
    assert frames + [] == frames;
    hide LoadFrom, PutSection, PutBody, ReadBody, Coloured, ReadU32, Taken, Rest, FrameOf;
  }

  /** Loading a file written from well-formed sections finds exactly their frames in file order, then goes on with
      whatever follows them; it stops short exactly when a frame has no colour to take. */
  lemma {:induction false} LoadPut(parts: seq<Part>, t: Bytes, c: Colours, frames: seq<Source>)
    requires PartsOk(parts)
    ensures LoadFrom(Put(parts, t), c, frames)
         == if Frames(parts, c).None? then Aborted
            else LoadFrom(t, AfterAll(parts, c), frames + Frames(parts, c).value)
    decreases |parts|
  {
    hide LoadFrom, PutSection, PutBody, Coloured, After, Shown;
    if parts == [] {
      assert frames + [] == frames;
    } else {
      var p := parts[0];
      LoadPutFirst(p, Put(parts[1..], t), c, frames);
      if !(p.Indexed? && !Coloured(p.raws, c)) {
        var own, rest := Shown(p, c), Frames(parts[1..], After(p, c));
        LoadPut(parts[1..], t, After(p, c), frames + own);
        if rest.Some? {
          assert frames + own + rest.value == frames + (own + rest.value);
        }
      }
    }
  }

  /** The end of a file: a frame or a true-colour table without points, and anything after it. */
  ghost predicate EndMarker(t: Bytes) {
    FrameEnd(t) || TableEnd(t)
  }

  ghost predicate FrameEnd(t: Bytes) {
    exists format: nat, head: Head, junk: Bytes ::
      format in {0, 1, 4, 5} && HeadOk(head) && t == PutSection(format, PutHeader(head, 0, junk))
  }

  ghost predicate TableEnd(t: Bytes) {
    exists length: nat, junk: Bytes ::
      length < 0x1_0000_0000 && t == PutSection(3, Put32(length) + (Put32(0) + junk))
  }

  /** Something else than a section. */
  predicate NotIlda(t: Bytes) {
    t != [] && Taken(t, 4) != MAGIC
  }

  lemma EndsThere(t: Bytes, c: Colours, frames: seq<Source>)
    requires t == [] || EndMarker(t) || NotIlda(t)
    ensures LoadFrom(t, c, frames) == Loaded(frames, if NotIlda(t) then 2 else 0)
  {
    hide Put32;
    if FrameEnd(t) {
      var format: nat, head: Head, junk: Bytes :|
        format in {0, 1, 4, 5} && HeadOk(head) && t == PutSection(format, PutHeader(head, 0, junk));
      ReadPutSection(format, PutHeader(head, 0, junk));
      ReadPutHeader(head, 0, junk);
      hide PutSection, PutHeader, ReadHeader, ReadU32, Taken;
    } else if TableEnd(t) {
      var length: nat, junk: Bytes :|
        length < 0x1_0000_0000 && t == PutSection(3, Put32(length) + (Put32(0) + junk));
      ReadPutSection(3, Put32(length) + (Put32(0) + junk));
      ReadPut32(length, Put32(0) + junk);
      ReadPut32(0, junk);
      hide PutSection, ReadU32, Taken;
    }
  }

  /** A whole file, with or without an end marker; followed by something else, it yields its frames and error 2. */
  lemma LoadWhole(parts: seq<Part>, t: Bytes, defaults: seq<Rgb>)
    requires PartsOk(parts) && (t == [] || EndMarker(t) || NotIlda(t))
    ensures LoadFrom(Put(parts, t), Initial(defaults), [])
         == if Frames(parts, Initial(defaults)).None? then Aborted
            else Loaded(Frames(parts, Initial(defaults)).value, if NotIlda(t) then 2 else 0)
  {
    hide LoadFrom, EndMarker, NotIlda;
    LoadPut(parts, t, Initial(defaults), []);
    var fs := Frames(parts, Initial(defaults));
    if fs.Some? {
      assert [] + fs.value == fs.value;
      EndsThere(t, AfterAll(parts, Initial(defaults)), fs.value);
    }
  }

  // Colours

  /** Without a palette or a table of its own, a file never asks for a colour that is not there. */
  lemma {:induction false} DefaultsSuffice(parts: seq<Part>, c: Colours)
    requires !c.trueColour && |c.palette| >= PALETTE_SIZE
    requires forall i | 0 <= i < |parts| :: !parts[i].Palette? && !parts[i].Table?
    ensures Frames(parts, c).Some?
  {
    if parts != [] {
      DefaultsSuffice(parts[1..], After(parts[0], c));
    }
  }

  /** How many frames come before the first indexed one. */
  function BeforeIndexed(parts: seq<Part>): nat {
    if parts == [] || parts[0].Indexed? then 0
    else (if parts[0].Direct? then 1 else 0) + BeforeIndexed(parts[1..])
  }

  /** A true-colour table colours the next indexed frame at most: whatever table was read before, all other frames
      come out the same. */
  lemma {:induction false} TableReachesOne(parts: seq<Part>, c: Colours, d: Colours)
    requires c.palette == d.palette && Frames(parts, c).Some? && Frames(parts, d).Some?
    ensures var f, g := Frames(parts, c).value, Frames(parts, d).value;
            |f| == |g| && forall i | 0 <= i < |f| && i != BeforeIndexed(parts) :: f[i] == g[i]
  {
    if parts != [] {
      var p := parts[0];
      var f, g := Frames(parts[1..], After(p, c)).value, Frames(parts[1..], After(p, d)).value;
      hide Coloured;
      TableReachesOne(parts[1..], After(p, c), After(p, d));
      if p.Indexed? {
        assert After(p, c) == After(p, d);
      } else {
        var own := Shown(p, c);
        assert own == Shown(p, d);
        assert BeforeIndexed(parts) == |own| + BeforeIndexed(parts[1..]);
        forall i | 0 <= i < |own + f| && i != BeforeIndexed(parts)
          ensures (own + f)[i] == (own + g)[i]
        {
          if i >= |own| {
            assert f[i - |own|] == g[i - |own|];
          }
        }
      }
    }
  }

  /** A file whose palette has one colour and whose frame asks for the second makes the loader read outside it. */
  lemma OneColourTooFew(head: Head, black: Rgb, defaults: seq<Rgb>)
    requires HeadOk(head)
    ensures var parts := [Palette(head, [black]), Indexed(true, head, [RawPoint(Place(0, 0, 0), 0, 1)])];
            PartsOk(parts) && LoadFrom(Put(parts, []), Initial(defaults), []) == Aborted
  {
    var raws := [RawPoint(Place(0, 0, 0), 0, 1)];
    var parts := [Palette(head, [black]), Indexed(true, head, raws)];
    var c := Initial(defaults).(palette := [black]);
    assert raws[0].colour >= |c.palette|;
    assert !Coloured(raws, c) && After(parts[0], Initial(defaults)) == c && parts[1..][0] == parts[1];
    hide Put, LoadFrom;
    LoadWhole(parts, [], defaults);
  }
}
