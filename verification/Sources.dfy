/** Show content: a tree of frame sources (static frames, sequencers and colour rotators),
    the integer types the program stores them in, and the rule that limits how many children
    each kind of node may have. */
module Sources {
  import opened Wrappers

  type U8 = n: int | 0 <= n < 0x100
  type I16 = n: int | -0x8000 <= n < 0x8000
  type U32 = n: int | 0 <= n < 0x1_0000_0000

  datatype Point = Point(x: I16, y: I16, z: I16, blanked: bool, r: U8, g: U8, b: U8)

  datatype Rgb = Rgb(r: U8, g: U8, b: U8)

  const YELLOW := Rgb(255, 255, 0)
  const CYAN := Rgb(0, 255, 255)

  /** The integer settings of a colour rotator. */
  datatype Look = Look(pulse: Rgb, rotateH: bool, rotateS: bool, rotateV: bool, override: bool, overrideColour: Rgb)

  /** Sequencer play modes; a loaded file may hold any other number, which plays like SEQUENTIAL. */
  const SEQUENTIAL: U32 := 0
  const RANDOM: U32 := 1
  const PINGPONG: U32 := 2

  datatype Source =
    | Static(desc: string, data: seq<Point>, useDwell: bool, dwell: U32, repeats: U32)
    | Sequencer(desc: string, mode: U32, newMode: U32, repeats: U32, kids: seq<Source>)
    | Rotator(desc: string, look: Look, kids: seq<Source>)

  /** Element names: the registered node types, the fixed elements of a show file and any other name.
      Tokens that are not tags report the empty name. */
  datatype Tag =
    | StaticFrame | FrameSequence | ColourRotator
    | Lucifer | Sequence | Children | PointList
    | Other(name: string) | NoName

  function Name(s: Source): Tag {
    match s
    case Static(_, _, _, _, _) => StaticFrame
    case Sequencer(_, _, _, _, _) => FrameSequence
    case Rotator(_, _, _) => ColourRotator
  }

  function Kids(s: Source): seq<Source> {
    if s.Static? then [] else s.kids
  }

  function WithKids(s: Source, kids: seq<Source>): Source
    requires !s.Static?
  {
    match s
    case Sequencer(desc, mode, newMode, repeats, _) => Sequencer(desc, mode, newMode, repeats, kids)
    case Rotator(desc, look, _) => Rotator(desc, look, kids)
  }

  function WithDesc(s: Source, desc: string): Source {
    match s
    case Static(_, data, useDwell, dwell, repeats) => Static(desc, data, useDwell, dwell, repeats)
    case Sequencer(_, mode, newMode, repeats, kids) => Sequencer(desc, mode, newMode, repeats, kids)
    case Rotator(_, look, kids) => Rotator(desc, look, kids)
  }

  const NEW_STATIC := Static("A single frame", [], false, 100, 1)
  const NEW_SEQUENCER := Sequencer("A step sequencer for other frame sources", SEQUENTIAL, SEQUENTIAL, 0, [])
  const NEW_ROTATOR := Rotator("Colour modulation effect", Look(YELLOW, false, false, false, false, CYAN), [])

  /** The factory: a node with the settings its constructor gives it, or nothing for an unknown name. */
  function NewSource(name: Tag): Option<Source> {
    match name
    case StaticFrame => Some(NEW_STATIC)
    case FrameSequence => Some(NEW_SEQUENCER)
    case ColourRotator => Some(NEW_ROTATOR)
    case _ => None
  }

  /** A new node of the same kind. */
  function NewLike(s: Source): Source {
    match s
    case Static(_, _, _, _, _) => NEW_STATIC
    case Sequencer(_, _, _, _, _) => NEW_SEQUENCER
    case Rotator(_, _, _) => NEW_ROTATOR
  }

  predicate CanTakeChild(s: Source) {
    s.Sequencer? || (s.Rotator? && |s.kids| == 0)
  }

  /** Adds a child at a position, or at the end when the position is negative; the flag says whether
      the node accepted it. */
  function AddChild(s: Source, child: Source, pos: int): (r: (Source, bool))
    ensures r.1 <==> CanTakeChild(s) && pos <= |Kids(s)|
    ensures !r.1 ==> r.0 == s
    ensures r.1 ==> |Kids(r.0)| == |Kids(s)| + 1 && !r.0.Static?
    ensures r.1 ==> Kids(r.0)[if pos < 0 then |Kids(s)| else pos] == child
    ensures r.1 ==> var at := if pos < 0 then |Kids(s)| else pos;
                    WithKids(r.0, Kids(r.0)[..at] + Kids(r.0)[at + 1..]) == s
    ensures ArityOk(s) && ArityOk(child) ==> ArityOk(r.0)
  {
    if !CanTakeChild(s) || pos > |s.kids| then (s, false)
    else
      var at := if pos < 0 then |s.kids| else pos;
      assert s.kids == s.kids[..at] + s.kids[at..];
      (WithKids(s, s.kids[..at] + [child] + s.kids[at..]), true)
  }

  /** No node has more children than its kind allows. */
  predicate ArityOk(s: Source) {
    match s
    case Static(_, _, _, _, _) => true
    case Sequencer(_, _, _, _, kids) => forall k | k in kids :: ArityOk(k)
    case Rotator(_, _, kids) => |kids| <= 1 && forall k | k in kids :: ArityOk(k)
  }
}
