/** The effects of a colour rotator on the points of a frame, in place: override, hue rotation, pulse. Numbers are
    real; the conversion from red, green and blue is the GUI library's and stands here as a parameter. */
module ColourEffects {
  import opened Sources

  type Unit = x: real | 0.0 <= x <= 1.0

  /** Hue is -1 for a colour without one. */
  type Hue = h: real | h == -1.0 || 0.0 <= h <= 1.0 witness 0.0

  datatype Hsv = Hsv(h: Hue, s: Unit, v: Unit)

  /** A colour is kept in the space it was last set in. */
  datatype Colour = RgbColour(rgb: Rgb) | HsvColour(hsv: Hsv)

  /** The library's conversion of one into the other. */
  type Convert = Rgb -> Hsv

  /** Hue, saturation and value of a colour. */
  function HsvOf(c: Colour, cv: Convert): Hsv {
    match c
    case RgbColour(rgb) => cv(rgb)
    case HsvColour(hsv) => hsv
  }

  /** A point of a frame. */
  datatype Spot = Spot(x: real, y: real, z: real)

  datatype Dot = Dot(at: Spot, blanked: bool, colour: Colour)

  // Wrapping into the unit interval

  /** The number in [0, 1] that the wrap loops reach: the same up to a whole number. */
  function Wrap(x: real): (r: Unit) {
    if x < 0.0 then x - x.Floor as real
    else if x <= 1.0 then x
    else
      var down := x.Floor as real;
      if x == down then 1.0 else x - down
  }

  predicate Congruent(x: real, y: real) {
    (x - y) == (x - y).Floor as real
  }

  /** Wrap is the one map into [0, 1] that moves by whole numbers, leaves what is inside alone, and enters at the side
      it comes from. */
  lemma WrapIsTheOne(x: real, r: real)
    ensures r == Wrap(x)
       <==> 0.0 <= r <= 1.0 && Congruent(x, r)
            && (0.0 <= x <= 1.0 ==> r == x) && (x > 1.0 ==> r > 0.0) && (x < 0.0 ==> r < 1.0)
  {
    var w := Wrap(x);
    assert Congruent(x, w) by {
      if x < 0.0 {
        assert x - w == x.Floor as real;
      } else if x > 1.0 && x != x.Floor as real {
        assert x - w == x.Floor as real;
      } else if x > 1.0 {
        assert x - w == (x.Floor - 1) as real;
      }
    }
    if 0.0 <= r <= 1.0 && Congruent(x, r) && !(0.0 <= x <= 1.0) && (x > 1.0 ==> r > 0.0) && (x < 0.0 ==> r < 1.0) {
      var k, l := (x - r).Floor, (x - w).Floor;
      assert r - w == (l - k) as real;
    }
  }

  /** The two wrap loops. */
  method WrapByLoops(x: real) returns (h: real)
    ensures h == Wrap(x)
  {
    h := x;
    while h > 1.0
      invariant Congruent(x, h) && (x <= 1.0 ==> h == x) && (x > 1.0 ==> h > 0.0)
      decreases h.Floor
    {
      Shift(x, h, -1);
      h := h - 1.0;
    }
    while h < 0.0
      invariant Congruent(x, h) && h <= 1.0 && (x >= 0.0 ==> 0.0 <= h)
      invariant (x > 1.0 ==> h > 0.0) && (0.0 <= x <= 1.0 ==> h == x) && (x < 0.0 ==> h < 1.0)
      decreases -h.Floor
    {
      Shift(x, h, 1);
      h := h + 1.0;
    }
    WrapIsTheOne(x, h);
  }

  lemma Shift(x: real, h: real, step: int)
    requires Congruent(x, h)
    ensures Congruent(x, h + step as real)
  {
    assert x - (h + step as real) == ((x - h).Floor - step) as real;
  }

  function Clamp(x: real): Unit {
    if x > 1.0 then 1.0 else if x < 0.0 then 0.0 else x
  }

  // Phases

  /** One step of a phase with at most one correction each way. */
  function Advance(phase: real, step: real): real {
    var p := if phase + step > 1.0 then phase + step - 1.0 else phase + step;
    if p < 0.0 then p + 1.0 else p
  }

  function PhaseAt(start: real, step: real, i: nat): real {
    if i == 0 then start else Advance(PhaseAt(start, step, i - 1), step)
  }

  /** One step of a phase that is never corrected upwards. */
  function AdvanceUp(phase: real, step: real): real {
    if phase + step > 1.0 then phase + step - 1.0 else phase + step
  }

  function PhaseUpAt(start: real, step: real, i: nat): real {
    if i == 0 then start else AdvanceUp(PhaseUpAt(start, step, i - 1), step)
  }

  lemma {:induction false} PhaseStays(start: real, step: real, i: nat)
    requires 0.0 <= start <= 1.0 && -1.0 <= step <= 1.0
    ensures 0.0 <= PhaseAt(start, step, i) <= 1.0
  {
    if i > 0 {
      PhaseStays(start, step, i - 1);
    }
  }

  function Product(a: real, b: real): real {
    a * b
  }

  lemma ProductNext(i: nat, d: real)
    ensures Product((i + 1) as real, d) == Product(i as real, d) + d && Product(0.0, d) == 0.0
  {
  }

  /** A phase that moves by more than one a point gains exactly the excess at each. */
  lemma {:induction false} PhaseClimbs(start: real, step: real, i: nat)
    requires step > 1.0 && start >= 0.0
    ensures PhaseAt(start, step, i) == start + Product(i as real, step - 1.0)
  {
    hide Product;
    ProductNext(if i == 0 then 0 else i - 1, step - 1.0);
    if i > 0 {
      PhaseClimbs(start, step, i - 1);
      Grows(i - 1, step - 1.0);
    }
  }

  lemma {:induction false} PhaseFalls(start: real, step: real, i: nat)
    requires step < -1.0 && start <= 1.0
    ensures PhaseAt(start, step, i) == start - Product(i as real, -1.0 - step)
  {
    hide Product;
    ProductNext(if i == 0 then 0 else i - 1, -1.0 - step);
    if i > 0 {
      PhaseFalls(start, step, i - 1);
      Grows(i - 1, -1.0 - step);
    }
  }

  lemma Grows(i: nat, d: real)
    requires d > 0.0
    ensures Product(i as real, d) >= 0.0
  {
  }

  lemma Exceeds(n: real, q: real, e: real)
    requires n > q && e > 0.0
    ensures Product(n, e) > Product(q, e)
  {
  }

  lemma Quotient(e: real) returns (q: real)
    requires e > 0.0
    ensures Product(q, e) == 2.0 && q > 0.0
  {
    q := 2.0 / e;
  }

  lemma Enough(e: real) returns (n: nat)
    requires e > 0.0
    ensures Product(n as real, e) > 2.0
  {
    hide Product;
    var q := Quotient(e);
    n := q.Floor + 1;
    Exceeds(n as real, q, e);
  }

  lemma Mounts(i: nat, j: nat, d: real)
    requires i <= j && d > 0.0
    ensures Product(i as real, d) <= Product(j as real, d)
  {
  }

  /** The phase is in [0, 1] at each of the n points of a frame. */
  ghost predicate FrameInRange(start: real, step: real, n: nat) {
    forall i: nat | i < n :: 0.0 <= PhaseAt(start, step, i) <= 1.0
  }

  /** That is so if and only if it moves by at most one a point, or the frame ends before the excess has carried it out
      of range. */
  lemma FramePhases(start: real, step: real, n: nat)
    requires 0.0 <= start <= 1.0 && n > 0
    ensures FrameInRange(start, step, n)
       <==> -1.0 <= step <= 1.0
            || (step > 1.0 && start + Product((n - 1) as real, step - 1.0) <= 1.0)
            || (step < -1.0 && start - Product((n - 1) as real, -1.0 - step) >= 0.0)
  {
    hide Product, PhaseAt;
    forall i: nat | i < n
      ensures -1.0 <= step <= 1.0 ==> 0.0 <= PhaseAt(start, step, i) <= 1.0
      ensures step > 1.0 ==> 0.0 <= PhaseAt(start, step, i) <= PhaseAt(start, step, n - 1)
      ensures step < -1.0 ==> PhaseAt(start, step, n - 1) <= PhaseAt(start, step, i) <= 1.0
    {
      if step > 1.0 {
        PhaseClimbs(start, step, i);
        PhaseClimbs(start, step, n - 1);
        Grows(i, step - 1.0);
        Mounts(i, n - 1, step - 1.0);
      } else if step < -1.0 {
        PhaseFalls(start, step, i);
        PhaseFalls(start, step, n - 1);
        Grows(i, -1.0 - step);
        Mounts(i, n - 1, -1.0 - step);
      } else {
        PhaseStays(start, step, i);
      }
    }
    if step > 1.0 { PhaseClimbs(start, step, n - 1); }
    if step < -1.0 { PhaseFalls(start, step, n - 1); }
  }

  /** Harmonic 5 leaves the range on a frame of two points; harmonic 3 does not, although it moves by more than one. */
  lemma HarmonicLeaves()
    ensures 5.0 / 2.0 == 2.5 && PhaseAt(0.0, 2.5, 1) == 1.5 && !FrameInRange(0.0, 2.5, 2)
    ensures 3.0 / 2.0 == 1.5 && FrameInRange(0.0, 1.5, 2)
  {
    assert PhaseAt(0.0, 2.5, 0) == 0.0 && PhaseAt(0.0, 1.5, 0) == 0.0;
    assert PhaseAt(0.0, 2.5, 1) == 1.5 && PhaseAt(0.0, 1.5, 1) == 0.5;
  }

  /** Over a run of frames the pulse's start phase, which is corrected both ways, stays in [0, 1] if and only if it
      advances by at most one a frame. PhaseAt(start, step, k) is its value after k frames. */
  lemma PulseStartInRange(start: real, step: real)
    requires 0.0 <= start <= 1.0
    ensures (forall k: nat :: 0.0 <= PhaseAt(start, step, k) <= 1.0) <==> -1.0 <= step <= 1.0
  {
    hide Product, PhaseAt;
    if -1.0 <= step <= 1.0 {
      forall k: nat ensures 0.0 <= PhaseAt(start, step, k) <= 1.0 {
        PhaseStays(start, step, k);
      }
    } else if step > 1.0 {
      var n := Enough(step - 1.0);
      PhaseClimbs(start, step, n);
      assert PhaseAt(start, step, n) > 1.0;
    } else {
      var n := Enough(-1.0 - step);
      PhaseFalls(start, step, n);
      assert PhaseAt(start, step, n) < 0.0;
    }
  }

  lemma {:induction false} PhaseUpStays(start: real, step: real, k: nat)
    requires 0.0 <= start <= 1.0 && 0.0 <= step <= 1.0
    ensures 0.0 <= PhaseUpAt(start, step, k) <= 1.0
  {
    if k > 0 { PhaseUpStays(start, step, k - 1); }
  }

  lemma {:induction false} PhaseUpClimbs(start: real, step: real, k: nat)
    requires step > 1.0 && start >= 0.0
    ensures PhaseUpAt(start, step, k) == start + Product(k as real, step - 1.0)
  {
    hide Product;
    ProductNext(if k == 0 then 0 else k - 1, step - 1.0);
    if k > 0 {
      PhaseUpClimbs(start, step, k - 1);
      Grows(k - 1, step - 1.0);
    }
  }

  lemma {:induction false} PhaseUpSinks(start: real, step: real, k: nat)
    requires step < 0.0 && start <= 1.0
    ensures PhaseUpAt(start, step, k) == start - Product(k as real, -step)
  {
    hide Product;
    ProductNext(if k == 0 then 0 else k - 1, -step);
    if k > 0 {
      PhaseUpSinks(start, step, k - 1);
      Grows(k - 1, -step);
    }
  }

  /** The rotation's start phase is corrected downwards only: over a run of frames it stays in [0, 1] if and only if it
      advances by zero to one a frame. PhaseUpAt(start, step, k) is its value after k frames with points. */
  lemma RotateStartInRange(start: real, step: real)
    requires 0.0 <= start <= 1.0
    ensures (forall k: nat :: 0.0 <= PhaseUpAt(start, step, k) <= 1.0) <==> 0.0 <= step <= 1.0
  {
    hide Product, PhaseUpAt;
    if 0.0 <= step <= 1.0 {
      forall k: nat ensures 0.0 <= PhaseUpAt(start, step, k) <= 1.0 {
        PhaseUpStays(start, step, k);
      }
    } else if step > 1.0 {
      var n := Enough(step - 1.0);
      PhaseUpClimbs(start, step, n);
      assert PhaseUpAt(start, step, n) > 1.0;
    } else {
      var n := Enough(-step);
      PhaseUpSinks(start, step, n);
      assert PhaseUpAt(start, step, n) < 0.0;
    }
  }

  // The effects as functions of the points

  datatype Settings = Settings(
    pulse: Rgb, dutycycle: real, pulseHarmonic: real, pulseAdvance: real,
    rotateH: bool, rotateS: bool, rotateV: bool, rotateHarmonic: real, rotateAdvance: real,
    override: bool, overrideColour: Rgb)

  function Overridden(dots: seq<Dot>, s: Settings): (r: seq<Dot>)
    ensures |r| == |dots|
  {
    if !s.override then dots
    else seq(|dots|, i requires 0 <= i < |dots| => dots[i].(colour := RgbColour(s.overrideColour)))
  }

  function Rotate(hsv: Hsv, phase: real, s: Settings): Hsv {
    Hsv(Wrap(if s.rotateH then hsv.h + phase else hsv.h),
        Wrap(if s.rotateS then hsv.s + phase else hsv.s),
        Clamp(if s.rotateV then Product(hsv.v, phase) else hsv.v))
  }

  /** How far the phase of the rotation moves at each of n points. */
  function RotateIncr(n: nat, s: Settings): real
    requires n > 0
  {
    s.rotateHarmonic / n as real
  }

  function PulseIncr(n: nat, s: Settings): real
    requires n > 0
  {
    1.0 / n as real * s.pulseHarmonic
  }

  function RotatedDot(d: Dot, i: nat, n: nat, start: real, s: Settings, cv: Convert): Dot
    requires n > 0
  {
    d.(colour := HsvColour(Rotate(HsvOf(d.colour, cv), PhaseAt(start, RotateIncr(n, s), i), s)))
  }

  function Rotated(dots: seq<Dot>, start: real, s: Settings, cv: Convert): (r: seq<Dot>)
    ensures |r| == |dots|
  {
    seq(|dots|, i requires 0 <= i < |dots| => RotatedDot(dots[i], i, |dots|, start, s, cv))
  }

  /** Points that are lit while the phase is inside the duty cycle take the pulse's colour. */
  function PulsedDot(d: Dot, i: nat, n: nat, start: real, s: Settings): Dot
    requires n > 0
  {
    if !d.blanked && PhaseUpAt(start, PulseIncr(n, s), i) < s.dutycycle then d.(colour := RgbColour(s.pulse))
    else d
  }

  function Pulsed(dots: seq<Dot>, start: real, s: Settings): (r: seq<Dot>)
    ensures |r| == |dots|
  {
    if s.pulseHarmonic == 0.0 then dots
    else seq(|dots|, i requires 0 <= i < |dots| => PulsedDot(dots[i], i, |dots|, start, s))
  }

  /** A frame after all effects, in the order the program applies them. */
  function Effects(dots: seq<Dot>, pulseStart: real, rotateStart: real, s: Settings, cv: Convert): seq<Dot> {
    Pulsed(Rotated(Overridden(dots, s), rotateStart, s, cv), pulseStart, s)
  }

  /** What the effects leave alone. */
  predicate SameShape(a: seq<Dot>, b: seq<Dot>) {
    |a| == |b| && forall i | 0 <= i < |a| :: a[i].at == b[i].at && a[i].blanked == b[i].blanked
  }

  lemma EffectsKeepShape(dots: seq<Dot>, pulseStart: real, rotateStart: real, s: Settings, cv: Convert)
    ensures SameShape(dots, Effects(dots, pulseStart, rotateStart, s, cv))
  {
  }

  /** With every effect switched off each point keeps its hue, saturation and value, with hue 0 for a colour without
      one. */
  lemma OffKeepsColours(dots: seq<Dot>, pulseStart: real, rotateStart: real, s: Settings, cv: Convert, i: nat)
    requires !s.override && !s.rotateH && !s.rotateS && !s.rotateV && s.pulseHarmonic == 0.0 && i < |dots|
    ensures var c := HsvOf(dots[i].colour, cv);
            HsvOf(Effects(dots, pulseStart, rotateStart, s, cv)[i].colour, cv)
            == Hsv(if c.h == -1.0 then 0.0 else c.h, c.s, c.v)
  {
    WrapIsTheOne(-1.0, 0.0);
  }

  /** What the rotation does to a colour at some phase: it adds the phase to hue and saturation and multiplies the value
      by it, each if switched on; hue and saturation stay in [0, 1] up to a whole number, the value by cutting off. */
  predicate Turned(before: Hsv, after: Hsv, phase: real, s: Settings) {
    0.0 <= after.h <= 1.0
    && (if s.rotateH then Congruent(before.h + phase, after.h)
        else after.h == if before.h == -1.0 then 0.0 else before.h)
    && (if s.rotateS then Congruent(before.s + phase, after.s) else after.s == before.s)
    && if !s.rotateV then after.v == before.v
       else if Product(before.v, phase) > 1.0 then after.v == 1.0
       else if Product(before.v, phase) < 0.0 then after.v == 0.0
       else after.v == Product(before.v, phase)
  }

  lemma RotateTurns(hsv: Hsv, phase: real, s: Settings)
    ensures Turned(hsv, Rotate(hsv, phase, s), phase, s)
  {
    hide Wrap, Congruent, Clamp, Product;
    WrapTurns(hsv.h, phase);
    WrapTurns(hsv.s, phase);
    ClampTurns(hsv.v, phase);
  }

  lemma WrapTurns(x: real, phase: real)
    ensures Congruent(x + phase, Wrap(x + phase)) && (0.0 <= x <= 1.0 ==> Wrap(x) == x) && Wrap(-1.0) == 0.0
  {
    WrapIsTheOne(x + phase, Wrap(x + phase));
    WrapIsTheOne(-1.0, 0.0);
  }

  lemma ClampTurns(v: Unit, phase: real)
    ensures Clamp(v) == v
    ensures Clamp(Product(v, phase))
         == if Product(v, phase) > 1.0 then 1.0 else if Product(v, phase) < 0.0 then 0.0 else Product(v, phase)
  {
  }

  /** The phase at each point is the start phase plus the steps so far, up to a whole number. */
  lemma {:induction false} PhaseAdds(start: real, step: real, i: nat)
    ensures Congruent(start + Product(i as real, step), PhaseAt(start, step, i))
    ensures Congruent(start + Product(i as real, step), PhaseUpAt(start, step, i))
  {
    hide Product;
    ProductNext(if i == 0 then 0 else i - 1, step);
    if i == 0 {
      assert start + Product(0.0, step) == start;
    } else {
      PhaseAdds(start, step, i - 1);
      var x := start + Product((i - 1) as real, step);
      hide PhaseAt, PhaseUpAt, Congruent;
      AddBoth(x, PhaseAt(start, step, i - 1), step);
      AddBoth(x, PhaseUpAt(start, step, i - 1), step);
      CorrectBoth(x + step, PhaseAt(start, step, i - 1) + step);
      CorrectBoth(x + step, PhaseUpAt(start, step, i - 1) + step);
      PhaseNext(start, step, i - 1);
      assert start + Product(i as real, step) == x + step;
    }
  }

  lemma PhaseNext(start: real, step: real, i: nat)
    ensures PhaseAt(start, step, i + 1) == Advance(PhaseAt(start, step, i), step)
    ensures PhaseUpAt(start, step, i + 1) == AdvanceUp(PhaseUpAt(start, step, i), step)
  {
  }

  lemma AddBoth(x: real, y: real, step: real)
    requires Congruent(x, y)
    ensures Congruent(x + step, y + step)
  {
    assert (x + step) - (y + step) == x - y;
  }

  lemma CorrectBoth(x: real, y: real)
    requires Congruent(x, y)
    ensures Congruent(x, y - 1.0) && Congruent(x, y + 1.0) && Congruent(x, y - 1.0 + 1.0)
  {
    Shift(x, y, -1);
    Shift(x, y, 1);
  }

  /** Over all n points of a frame the phases move by the harmonic. */
  lemma IncrsAdd(n: nat, s: Settings)
    requires n > 0
    ensures Product(RotateIncr(n, s), n as real) == s.rotateHarmonic
    ensures Product(PulseIncr(n, s), n as real) == s.pulseHarmonic
  {
    IncrTimes(n, s);
    PulseTimes(1.0 / n as real, n as real, s.pulseHarmonic);
  }

  lemma PulseTimes(q: real, m: real, h: real)
    requires q * m == 1.0
    ensures (q * h) * m == h
  {
    assert (q * h) * m == (q * m) * h;
  }

  /** A point after all effects. A lit one inside the pulse's duty cycle has the pulse's colour; any other has its own
      colour, or the override colour, turned by the rotation's phase there. */
  lemma PointAfterEffects(dots: seq<Dot>, pulseStart: real, rotateStart: real, s: Settings, cv: Convert, i: nat)
    requires i < |dots|
    ensures var r := Effects(dots, pulseStart, rotateStart, s, cv)[i];
            var base := if s.override then RgbColour(s.overrideColour) else dots[i].colour;
            r.at == dots[i].at && r.blanked == dots[i].blanked
            && if s.pulseHarmonic != 0.0 && !dots[i].blanked
                  && PhaseUpAt(pulseStart, PulseIncr(|dots|, s), i) < s.dutycycle
               then r.colour == RgbColour(s.pulse)
               else r.colour.HsvColour?
                    && Turned(HsvOf(base, cv), r.colour.hsv, PhaseAt(rotateStart, RotateIncr(|dots|, s), i), s)
  {
    hide Turned, Rotate;
    var base := if s.override then RgbColour(s.overrideColour) else dots[i].colour;
    RotateTurns(HsvOf(base, cv), PhaseAt(rotateStart, RotateIncr(|dots|, s), i), s);
  }

  /** Red turned by half a circle is cyan; it stays as saturated and as bright. */
  lemma RedTurnsCyan(s: Settings)
    requires s.rotateH && !s.rotateS && !s.rotateV
    ensures Rotate(Hsv(0.0, 1.0, 1.0), 0.5, s) == Hsv(0.5, 1.0, 1.0)
  {
  }

  lemma PhaseStarts(start: real, step: real)
    ensures PhaseAt(start, step, 0) == start == PhaseUpAt(start, step, 0)
  {
  }

  lemma PhaseTurn(d: Dot, i: nat, n: nat, start: real, s: Settings, cv: Convert)
    requires n > 0
    ensures var step := RotateIncr(n, s);
            var phase := PhaseAt(start, step, i);
            PhaseAt(start, step, i + 1) == Advance(phase, step)
            && RotatedDot(d, i, n, start, s, cv) == d.(colour := HsvColour(Rotate(HsvOf(d.colour, cv), phase, s)))
  {
  }

  lemma PulseTurn(d: Dot, i: nat, n: nat, start: real, s: Settings)
    requires n > 0
    ensures var step := PulseIncr(n, s);
            var phase := PhaseUpAt(start, step, i);
            PhaseUpAt(start, step, i + 1) == AdvanceUp(phase, step)
            && PulsedDot(d, i, n, start, s)
               == if !d.blanked && phase < s.dutycycle then d.(colour := RgbColour(s.pulse)) else d
  {
  }

  // Runs of frames

  /** The rotation's start phase after frames of these sizes: an empty frame does not move it. */
  function StartAfter(start: real, sizes: seq<nat>, s: Settings): real
    decreases |sizes|
  {
    if sizes == [] then start
    else StartAfter(if sizes[0] == 0 then start else AdvanceUp(start, s.rotateAdvance), sizes[1..], s)
  }

  function CountFull(sizes: seq<nat>): nat
    decreases |sizes|
  {
    if sizes == [] then 0 else (if sizes[0] == 0 then 0 else 1) + CountFull(sizes[1..])
  }

  lemma {:induction false} PhaseUpFrom(start: real, step: real, k: nat)
    ensures PhaseUpAt(AdvanceUp(start, step), step, k) == PhaseUpAt(start, step, k + 1)
  {
    if k > 0 { PhaseUpFrom(start, step, k - 1); }
  }

  lemma {:induction false} StartAfterIs(start: real, sizes: seq<nat>, s: Settings)
    ensures StartAfter(start, sizes, s) == PhaseUpAt(start, s.rotateAdvance, CountFull(sizes))
    decreases |sizes|
  {
    hide AdvanceUp;
    if sizes != [] {
      if sizes[0] == 0 {
        StartAfterIs(start, sizes[1..], s);
      } else {
        StartAfterIs(AdvanceUp(start, s.rotateAdvance), sizes[1..], s);
        PhaseUpFrom(start, s.rotateAdvance, CountFull(sizes[1..]));
      }
    }
  }

  /** In whatever sizes the frames come, every one of them starts in [0, 1] if and only if the advance is in [0, 1]. */
  lemma StartsInRange(start: real, s: Settings)
    requires 0.0 <= start <= 1.0
    ensures (forall sizes: seq<nat> :: 0.0 <= StartAfter(start, sizes, s) <= 1.0) <==> 0.0 <= s.rotateAdvance <= 1.0
  {
    hide StartAfter, PhaseUpAt, CountFull;
    RotateStartInRange(start, s.rotateAdvance);
    if 0.0 <= s.rotateAdvance <= 1.0 {
      forall sizes: seq<nat>
        ensures 0.0 <= StartAfter(start, sizes, s) <= 1.0
      {
        StartAfterIs(start, sizes, s);
        assert 0.0 <= PhaseUpAt(start, s.rotateAdvance, CountFull(sizes)) <= 1.0;
      }
    } else {
      var k: nat :| !(0.0 <= PhaseUpAt(start, s.rotateAdvance, k) <= 1.0);
      var sizes: seq<nat> := seq(k, _ => 1);
      CountOnes(k);
      StartAfterIs(start, sizes, s);
      assert !(0.0 <= StartAfter(start, sizes, s) <= 1.0);
    }
  }

  /** Then the phase is in range at all points of every frame with at least as many points as the harmonic. */
  lemma RunInRange(start: real, sizes: seq<nat>, n: nat, s: Settings)
    requires 0.0 <= start <= 1.0 && 0.0 <= s.rotateAdvance <= 1.0
    requires n > 0 && -(n as real) <= s.rotateHarmonic <= n as real
    ensures FrameInRange(StartAfter(start, sizes, s), RotateIncr(n, s), n)
  {
    StartAfterIs(start, sizes, s);
    PhaseUpStays(start, s.rotateAdvance, CountFull(sizes));
    IncrInRange(n, s);
    FramePhases(StartAfter(start, sizes, s), RotateIncr(n, s), n);
  }

  lemma {:induction false} CountOnes(k: nat)
    ensures CountFull(seq(k, _ => 1)) == k
  {
    if k > 0 {
      CountOnes(k - 1);
      assert seq(k, _ => 1)[1..] == seq(k - 1, _ => 1);
    }
  }

  lemma IncrInRange(n: nat, s: Settings)
    requires n > 0 && -(n as real) <= s.rotateHarmonic <= n as real
    ensures -1.0 <= RotateIncr(n, s) <= 1.0
  {
    var q, m := RotateIncr(n, s), n as real;
    IncrTimes(n, s);
    hide Product, RotateIncr;
    if q > 1.0 { Exceeds(q, 1.0, m); }
    if q < -1.0 { Exceeds(-1.0, q, m); }
    Ones(m);
  }

  lemma IncrTimes(n: nat, s: Settings)
    requires n > 0
    ensures Product(RotateIncr(n, s), n as real) == s.rotateHarmonic
  {
  }

  lemma Ones(m: real)
    ensures Product(1.0, m) == m && Product(-1.0, m) == -m
  {
  }

  // The objects

  class ColourRotatorPlayback {
    var pulserStartPhase: real
    var rotatorStartPhase: real

    constructor ()
      ensures pulserStartPhase == rotatorStartPhase == 0.0
    {
      pulserStartPhase, rotatorStartPhase := 0.0, 0.0;
    }
  }

  class ColourRotator {
    var settings: Settings
    const convert: Convert

    constructor (settings: Settings, convert: Convert)
      ensures this.settings == settings && this.convert == convert
    {
      this.settings, this.convert := settings, convert;
    }

    method ColourOverride(frame: array<Dot>)
      modifies frame
      ensures frame[..] == Overridden(old(frame[..]), settings)
    {
      if settings.override {
        for i := 0 to frame.Length
          invariant forall k | 0 <= k < i :: frame[k] == old(frame[k]).(colour := RgbColour(settings.overrideColour))
          invariant forall k | i <= k < frame.Length :: frame[k] == old(frame[k])
        {
          frame[i] := frame[i].(colour := RgbColour(settings.overrideColour));
        }
      }
    }

    method HSVRotator(frame: array<Dot>, pb: ColourRotatorPlayback)
      modifies frame, pb`rotatorStartPhase
      ensures frame[..] == Rotated(old(frame[..]), old(pb.rotatorStartPhase), settings, convert)
      ensures pb.rotatorStartPhase == if frame.Length == 0 then old(pb.rotatorStartPhase)
                                      else AdvanceUp(old(pb.rotatorStartPhase), settings.rotateAdvance)
    {
      hide Wrap, Clamp, Product, PhaseAt, RotateIncr, RotatedDot;
      if frame.Length == 0 {
        return;
      }
      var start := pb.rotatorStartPhase;
      var phase := start;
      var phaseIncr := RotateIncr(frame.Length, settings);
      PhaseStarts(start, phaseIncr);
      for i := 0 to frame.Length
        invariant phase == PhaseAt(start, phaseIncr, i)
        invariant forall k | 0 <= k < i ::
                    frame[k] == RotatedDot(old(frame[k]), k, frame.Length, start, settings, convert)
        invariant forall k | i <= k < frame.Length :: frame[k] == old(frame[k])
        modifies frame
      {
        var p := frame[i];
        var hsv := HsvOf(p.colour, convert);
        var h: real, s: real, v: real := hsv.h, hsv.s, hsv.v;
        if settings.rotateH { h := h + phase; }
        if settings.rotateV { v := Product(v, phase); }
        if settings.rotateS { s := s + phase; }
        h := WrapByLoops(h);
        v := Clamp(v);
        s := WrapByLoops(s);
        PhaseTurn(p, i, frame.Length, start, settings, convert);
        phase := phase + phaseIncr;
        if phase > 1.0 { phase := phase - 1.0; }
        if phase < 0.0 { phase := phase + 1.0; }
        if h >= 0.0 && h <= 1.0 && v >= 0.0 && v <= 1.0 && s >= 0.0 && s <= 1.0 {
          frame[i] := p.(colour := HsvColour(Hsv(h, s, v)));
        } else {
          assert false;
        }
      }
      pb.rotatorStartPhase := start + settings.rotateAdvance;
      if pb.rotatorStartPhase > 1.0 { pb.rotatorStartPhase := pb.rotatorStartPhase - 1.0; }
    }

    method ColourPulse(frame: array<Dot>, pb: ColourRotatorPlayback)
      modifies frame, pb`pulserStartPhase
      ensures frame[..] == Pulsed(old(frame[..]), old(pb.pulserStartPhase), settings)
      ensures pb.pulserStartPhase == if frame.Length == 0 || settings.pulseHarmonic == 0.0 then old(pb.pulserStartPhase)
                                     else Advance(old(pb.pulserStartPhase), settings.pulseAdvance)
    {
      hide PhaseUpAt, PulseIncr, PulsedDot;
      if frame.Length == 0 || settings.pulseHarmonic == 0.0 {
        return;
      }
      var start := pb.pulserStartPhase;
      var phase := start;
      var perPointIncr := PulseIncr(frame.Length, settings);
      PhaseStarts(start, perPointIncr);
      for i := 0 to frame.Length
        invariant phase == PhaseUpAt(start, perPointIncr, i)
        invariant forall k | 0 <= k < i ::
                    frame[k] == PulsedDot(old(frame[k]), k, frame.Length, start, settings)
        invariant forall k | i <= k < frame.Length :: frame[k] == old(frame[k])
        modifies frame
      {
        PulseTurn(frame[i], i, frame.Length, start, settings);
        if phase < settings.dutycycle {
          var pt := frame[i];
          if !pt.blanked {
            frame[i] := pt.(colour := RgbColour(settings.pulse));
          }
        }
        phase := phase + perPointIncr;
        if phase > 1.0 { phase := phase - 1.0; }
      }
      pb.pulserStartPhase := start + settings.pulseAdvance;
      if pb.pulserStartPhase > 1.0 { pb.pulserStartPhase := pb.pulserStartPhase - 1.0; }
      if pb.pulserStartPhase < 0.0 { pb.pulserStartPhase := pb.pulserStartPhase + 1.0; }
    }

    /** What nextFrame does to the frame its child returned. */
    method Modulate(frame: array<Dot>, pb: ColourRotatorPlayback)
      modifies frame, pb
      ensures frame[..]
           == Effects(old(frame[..]), old(pb.pulserStartPhase), old(pb.rotatorStartPhase), settings, convert)
      ensures SameShape(old(frame[..]), frame[..])
    {
      EffectsKeepShape(frame[..], pb.pulserStartPhase, pb.rotatorStartPhase, settings, convert);
      ColourOverride(frame);
      HSVRotator(frame, pb);
      ColourPulse(frame, pb);
    }
  }
}
