/** The drivers' bounded point buffers: the head fills them, the hardware empties them. */
module Driver {
  import opened Wrappers

  datatype Sample = Sample(x: real, y: real, r: real, g: real, b: real)

  /** A buffer of some size: the points waiting in it, and those the hardware has taken out of it. */
  datatype Hw = Hw(size: nat, queue: seq<Sample>, played: seq<Sample>)

  function Free(h: Hw): int {
    h.size - |h.queue|
  }

  /** All points ever accepted, in order. */
  function Accepted(h: Hw): seq<Sample> {
    h.played + h.queue
  }

  /** ILDANewPoints: as many points from the offset on as there is space for. */
  function Take(h: Hw, pts: seq<Sample>, offset: nat): (r: (Hw, nat))
    requires offset <= |pts| && |h.queue| <= h.size
    ensures |r.0.queue| <= h.size == r.0.size && r.1 == Min(Free(h), |pts| - offset)
    ensures Accepted(r.0) == Accepted(h) + pts[offset..offset + r.1]
    ensures Free(r.0) == Free(h) - r.1
  {
    var used := Min(Free(h), |pts| - offset);
    (h.(queue := h.queue + pts[offset..offset + used]), used)
  }

  /** The hardware takes up to n points. */
  function Drain(h: Hw, n: nat): (r: Hw)
    ensures Accepted(r) == Accepted(h) && r.size == h.size && |r.queue| == |h.queue| - Min(n, |h.queue|)
  {
    var k := Min(n, |h.queue|);
    assert h.queue == h.queue[..k] + h.queue[k..];
    h.(queue := h.queue[k..], played := h.played + h.queue[..k])
  }

  const DUMMY_SIZE := 2000
  const DUMMY_TICK := 1000
  const AUDIO_SIZE := 1024

  /** What goes to each channel of the sound card; further channels are not written. */
  function Channel(p: Sample, j: nat): real
    requires j < 6
  {
    match j
    case 0 => p.x
    case 1 => p.y
    case 2 => p.r
    case 3 => p.g
    case 4 => p.b
    case 5 => (p.r + p.g + p.b) / 3.0
  }

  /** One driver object: the dummy, which only counts the points it holds, or the sound card, which holds them in a
      ring buffer. The history says which points the count stands for. */
  class Driver {
    const audio: bool
    var bufferFill: nat
    var ring: seq<Sample>
    ghost var history: Hw

    ghost predicate Valid()
      reads this
    {
      |history.queue| <= history.size
      && if audio then ring == history.queue && history.size == AUDIO_SIZE
         else bufferFill == |history.queue| && history.size == DUMMY_SIZE
    }

    constructor (audio: bool)
      ensures Valid() && this.audio == audio
      ensures history == Hw(if audio then 1024 else 2000, [], [])
    {
      this.audio := audio;
      bufferFill, ring := 0, [];
      history := Hw(if audio then AUDIO_SIZE else DUMMY_SIZE, [], []);
    }

    method BufferFillStatus() returns (free: nat)
      requires Valid()
      ensures free == Free(history)
    {
      free := if audio then AUDIO_SIZE - |ring| else DUMMY_SIZE - bufferFill;
    }

    method NewPoints(pts: seq<Sample>, offset: nat) returns (used: nat)
      requires Valid() && offset <= |pts|
      modifies this
      ensures Valid() && (history, used) == Take(old(history), pts, offset)
    {
      if audio {
        var transfer := |pts| - offset;
        if transfer > AUDIO_SIZE - |ring| { transfer := AUDIO_SIZE - |ring|; }
        for i := 0 to transfer
          invariant ring == old(ring) + pts[offset..offset + i]
          invariant history == old(history)
        {
          ring := ring + [pts[i + offset]];
        }
        used := transfer;
      } else {
        var space := DUMMY_SIZE - bufferFill;
        used := |pts| - offset;
        if space < used { used := space; }
        bufferFill := bufferFill + used;
      }
      history := Take(history, pts, offset).0;
    }

    /** The dummy's timer. */
    method Timeout()
      requires Valid() && !audio
      modifies this
      ensures Valid() && history == Drain(old(history), DUMMY_TICK)
      ensures bufferFill == if old(bufferFill) > 1000 then old(bufferFill) - 1000 else 0
    {
      if bufferFill > 1000 { bufferFill := bufferFill - 1000; } else { bufferFill := 0; }
      history := Drain(history, DUMMY_TICK);
    }

    /** The sound card's callback: one row of channels per frame, in order, and silence when the buffer runs dry. */
    method Callback(out: array2<real>)
      requires Valid() && audio
      modifies this, out
      ensures Valid() && history == Drain(old(history), out.Length0)
      ensures forall i, j | 0 <= i < out.Length0 && 0 <= j < out.Length1 ::
                out[i, j] == if i >= |old(ring)| then 0.0
                             else if j < 6 then Channel(old(ring)[i], j) else old(out[i, j])
      ensures forall i | 0 <= i < out.Length0 && i < |old(ring)| && 0 < out.Length1 :: out[i, 0] == old(ring)[i].x
      ensures forall i | 0 <= i < out.Length0 && i < |old(ring)| && 1 < out.Length1 :: out[i, 1] == old(ring)[i].y
      ensures forall i | 0 <= i < out.Length0 && i < |old(ring)| && 2 < out.Length1 :: out[i, 2] == old(ring)[i].r
      ensures forall i | 0 <= i < out.Length0 && i < |old(ring)| && 3 < out.Length1 :: out[i, 3] == old(ring)[i].g
      ensures forall i | 0 <= i < out.Length0 && i < |old(ring)| && 4 < out.Length1 :: out[i, 4] == old(ring)[i].b
      ensures forall i | 0 <= i < out.Length0 && i < |old(ring)| && 5 < out.Length1 ::
                3.0 * out[i, 5] == old(ring)[i].r + old(ring)[i].g + old(ring)[i].b
    {
      var nf := out.Length0;
      if |ring| < nf { nf := |ring|; }
      for i := 0 to nf
        invariant ring == old(ring)[i..] && history == old(history)
        invariant forall k, j | 0 <= k < i && 0 <= j < out.Length1 ::
                    out[k, j] == if j < 6 then Channel(old(ring)[k], j) else old(out[k, j])
        invariant forall k, j | i <= k < out.Length0 && 0 <= j < out.Length1 :: out[k, j] == old(out[k, j])
      {
        var p := ring[0];
        ring := ring[1..];
        for j := 0 to out.Length1
          invariant ring == old(ring)[i + 1..] && history == old(history)
          invariant forall c | 0 <= c < j :: out[i, c] == if c < 6 then Channel(p, c) else old(out[i, c])
          invariant forall c | j <= c < out.Length1 :: out[i, c] == old(out[i, c])
          invariant forall k, c | 0 <= k < i && 0 <= c < out.Length1 ::
                      out[k, c] == if c < 6 then Channel(old(ring)[k], c) else old(out[k, c])
          invariant forall k, c | i < k < out.Length0 && 0 <= c < out.Length1 :: out[k, c] == old(out[k, c])
        {
          match j {
            case 0 => out[i, j] := p.x;
            case 1 => out[i, j] := p.y;
            case 2 => out[i, j] := p.r;
            case 3 => out[i, j] := p.g;
            case 4 => out[i, j] := p.b;
            case 5 => out[i, j] := (p.r + p.g + p.b) / 3.0;
            case _ =>
          }
        }
      }
      forall i, j | nf <= i < out.Length0 && 0 <= j < out.Length1 {
        out[i, j] := 0.0;
      }
      history := Drain(history, out.Length0);
    }
  }
}
