/** The play list of a head: which slots are selected, in which order, and which of them is playing.
    The state functions say what every slot call does; the class at the end is proved to do exactly that. */
module PlaybackList {

  /** Slot indexes, as far as they fit the signed number that stands for the current one. */
  type Slot = n: int | 0 <= n < 0x8000_0000

  datatype SelectionMode = SINGLE | MULTIPLE | SHUFFLE
  datatype StepMode = ONCE | LOOP | MANUAL | BEAT

  datatype Signal = Changed(pos: Slot, sel: bool) | Load(pos: Slot) | Dump

  /** The list, the slot playing (-1 for none), the modes, the signals emitted so far and how often the
      list has been shuffled. */
  datatype State = State(selections: seq<Slot>, current: int, selMode: SelectionMode, stepMode: StepMode,
                         log: seq<Signal>, draws: nat)

  const NEW := State([], -1, SINGLE, LOOP, [], 0)

  /** The random shuffle: each use of it is some permutation. */
  type Shuffler = (nat, seq<Slot>) -> seq<Slot>

  ghost predicate Shuffles(rnd: Shuffler) {
    forall d: nat, s: seq<Slot> :: multiset(rnd(d, s)) == multiset(s)
  }

  // What each call does

  function Emit(s: State, e: Signal): State {
    s.(log := s.log + [e])
  }

  function IndexOf(a: seq<Slot>, pos: Slot): (i: nat)
    ensures i <= |a| && (i < |a| ==> a[i] == pos) && forall j | 0 <= j < i :: a[j] != pos
  {
    if a == [] || a[0] == pos then 0 else 1 + IndexOf(a[1..], pos)
  }

  function Head(s: State): int {
    if s.selections == [] then -1 else s.selections[0]
  }

  /** The loop, manual and beat cases of next: the head goes to the back, and a shuffling list is shuffled. */
  function Rotate(s: State, rnd: Shuffler): (r: State)
    requires s.selections != [] && Shuffles(rnd)
    ensures multiset(r.selections) == multiset(s.selections)
    ensures s.selMode != SHUFFLE ==> r.selections == s.selections[1..] + [s.selections[0]]
    ensures r.current == s.current && r.selMode == s.selMode && r.stepMode == s.stepMode
  {
    var turned := s.selections[1..] + [s.selections[0]];
    assert s.selections == [s.selections[0]] + s.selections[1..];
    var shuffled := if s.selMode == SHUFFLE then rnd(s.draws, turned) else turned;
    assert |multiset(shuffled)| == |multiset(turned)|;
    Emit(s.(selections := shuffled, draws := if s.selMode == SHUFFLE then s.draws + 1 else s.draws), Load(shuffled[0]))
  }

  /** next(false) */
  function NextIdle(s: State, rnd: Shuffler): State
    requires Shuffles(rnd)
  {
    if s.selections == [] then s
    else if s.stepMode == ONCE then Emit(Emit(s, Load(s.selections[0])), Changed(s.selections[0], false))
    else Rotate(s, rnd)
  }

  function Without(a: seq<Slot>, i: nat): seq<Slot>
    requires i < |a|
  {
    a[..i] + a[i + 1..]
  }

  /** select(pos, false) */
  function Deselect(s: State, pos: Slot, rnd: Shuffler): State
    requires Shuffles(rnd)
  {
    var i := IndexOf(s.selections, pos);
    if i == |s.selections| then s
    else
      var erased := Emit(s.(selections := Without(s.selections, i)), Changed(pos, false));
      if i == 0 then NextIdle(Emit(erased.(current := -1), Dump), rnd) else erased
  }

  /** next(true) */
  function NextRunning(s: State, rnd: Shuffler): State
    requires Shuffles(rnd)
  {
    if s.selections == [] then s
    else if s.stepMode == ONCE then
      var head := s.selections[0];
      var gone := Deselect(s, head, rnd);
      Emit(if gone.selections == [] then gone else Emit(gone, Load(gone.selections[0])), Changed(head, false))
    else Rotate(s, rnd)
  }

  function AllOff(log: seq<Signal>, a: seq<Slot>): seq<Signal>
    decreases |a|
  {
    if a == [] then log else AllOff(log + [Changed(a[0], false)], a[1..])
  }

  /** select(pos, true): a slot that is selected already is deselected first, and added all the same. */
  function Select(s: State, pos: Slot, rnd: Shuffler): State
    requires Shuffles(rnd)
  {
    var t := if pos in s.selections then Deselect(s, pos, rnd) else s;
    if t.selMode == SINGLE then
      var cleared := t.(selections := [], current := -1, log := AllOff(t.log, t.selections));
      Emit(NextIdle(Emit(cleared, Dump).(selections := [pos]), rnd), Changed(pos, true))
    else Emit(t.(selections := t.selections + [pos]), Changed(pos, true))
  }

  /** Dropping selections from the back until one is left. */
  function Trim(s: State): State
    decreases |s.selections|
  {
    if |s.selections| <= 1 then s
    else
      var last := |s.selections| - 1;
      Trim(Emit(s, Changed(s.selections[last], false)).(selections := s.selections[..last]))
  }

  function SetSelection(s: State, mode: SelectionMode): State {
    (if mode == SINGLE then Trim(s) else s).(selMode := mode)
  }

  function Fetch(s: State, rnd: Shuffler): State
    requires Shuffles(rnd)
  {
    if s.stepMode == ONCE || s.stepMode == LOOP || s.current == -1 then
      var t := if s.current != -1 then NextRunning(s, rnd) else NextIdle(s, rnd);
      t.(current := Head(t))
    else s
  }

  /** A beat or a click of the manual step button, when the step mode asks for it. */
  function Trigger(s: State, mode: StepMode, rnd: Shuffler): State
    requires Shuffles(rnd)
  {
    if s.stepMode == mode then
      var t := NextRunning(s, rnd);
      Emit(t.(current := Head(t)), Dump)
    else s
  }

  function Clear(s: State): State {
    Emit(Trim(s).(current := -1), Dump)
  }

  // Runs

  datatype Op =
    | OpSelect(pos: Slot, active: bool)
    | OpSelection(selMode: SelectionMode)
    | OpStep(stepMode: StepMode)
    | OpFetch | OpManual | OpBeat | OpClear

  function Apply(s: State, op: Op, rnd: Shuffler): State
    requires Shuffles(rnd)
  {
    match op
    case OpSelect(pos, active) => if active then Select(s, pos, rnd) else Deselect(s, pos, rnd)
    case OpSelection(mode) => SetSelection(s, mode)
    case OpStep(mode) => s.(stepMode := mode)
    case OpFetch => Fetch(s, rnd)
    case OpManual => Trigger(s, MANUAL, rnd)
    case OpBeat => Trigger(s, BEAT, rnd)
    case OpClear => Clear(s)
  }

  function Run(ops: seq<Op>, rnd: Shuffler): State
    requires Shuffles(rnd)
  {
    if ops == [] then NEW else Apply(Run(ops[..|ops| - 1], rnd), ops[|ops| - 1], rnd)
  }

  // The list is never inconsistent

  predicate Distinct(a: seq<Slot>) {
    forall i, j | 0 <= i < j < |a| :: a[i] != a[j]
  }

  predicate Inv(s: State) {
    Distinct(s.selections) && (s.selMode == SINGLE ==> |s.selections| <= 1) && (s.current == -1 || s.current == Head(s))
  }

  lemma DistinctByCount(a: seq<Slot>)
    ensures Distinct(a) <==> forall x :: multiset(a)[x] <= 1
  {
    if Distinct(a) {
      forall x
        ensures multiset(a)[x] <= 1
      {
        CountOnce(a, x);
      }
    } else {
      var i, j :| 0 <= i < j < |a| && a[i] == a[j];
      CountTwice(a, i, j);
    }
  }

  lemma CountTwice(a: seq<Slot>, i: nat, j: nat)
    requires i < j < |a| && a[i] == a[j]
    ensures multiset(a)[a[i]] >= 2
  {
    var b := a[..j];
    assert b[i] == a[i] && a[i] in multiset(b);
    assert a == b + a[j..] && a[j..] == [a[j]] + a[j + 1..];
    assert multiset(a) == multiset(b) + multiset(a[j..]);
  }

  lemma {:induction false} CountOnce(a: seq<Slot>, x: Slot)
    requires Distinct(a)
    ensures multiset(a)[x] == if x in a then 1 else 0
  {
    if a != [] {
      CountOnce(a[1..], x);
      assert a == [a[0]] + a[1..];
    }
  }

  lemma RotateKeeps(s: State, rnd: Shuffler)
    requires Shuffles(rnd) && s.selections != [] && Distinct(s.selections)
    ensures Distinct(Rotate(s, rnd).selections) && |Rotate(s, rnd).selections| == |s.selections|
  {
    DistinctByCount(s.selections);
    DistinctByCount(Rotate(s, rnd).selections);
    assert |multiset(Rotate(s, rnd).selections)| == |multiset(s.selections)|;
  }

  lemma NextIdleKeeps(s: State, rnd: Shuffler)
    requires Shuffles(rnd) && Distinct(s.selections)
    ensures var t := NextIdle(s, rnd);
            Distinct(t.selections) && multiset(t.selections) == multiset(s.selections)
            && |t.selections| == |s.selections|
            && t.current == s.current && t.selMode == s.selMode && t.stepMode == s.stepMode
  {
    if s.selections != [] && s.stepMode != ONCE { RotateKeeps(s, rnd); }
  }

  lemma NextIdleModes(s: State, rnd: Shuffler)
    requires Shuffles(rnd)
    ensures NextIdle(s, rnd).selMode == s.selMode && NextIdle(s, rnd).stepMode == s.stepMode
  {
  }

  lemma WithoutKeeps(a: seq<Slot>, i: nat)
    requires Distinct(a) && i < |a|
    ensures Distinct(Without(a, i)) && a[i] !in Without(a, i)
    ensures multiset(Without(a, i)) == multiset(a) - multiset{a[i]}
  {
    assert a == a[..i] + [a[i]] + a[i + 1..];
    assert multiset(a) == multiset(a[..i]) + multiset{a[i]} + multiset(a[i + 1..]);
  }

  lemma NotSelected(a: seq<Slot>, pos: Slot)
    requires pos !in a
    ensures multiset(a) == multiset(a) - multiset{pos}
  {
  }

  lemma SameElements(a: seq<Slot>, b: seq<Slot>)
    requires multiset(a) == multiset(b)
    ensures forall x :: x in a <==> x in b
  {
    assert forall x :: x in a <==> x in multiset(a);
    assert forall x :: x in b <==> x in multiset(b);
  }

  lemma DeselectKeeps(s: State, pos: Slot, rnd: Shuffler)
    requires Shuffles(rnd) && Inv(s)
    ensures var t := Deselect(s, pos, rnd);
            Inv(t) && multiset(t.selections) == multiset(s.selections) - multiset{pos} && pos !in t.selections
            && t.selMode == s.selMode && t.stepMode == s.stepMode
  {
    hide Distinct, NextIdle;
    var a := s.selections;
    var i := IndexOf(a, pos);
    if i == |a| {
      NotSelected(a, pos);
    } else {
      WithoutKeeps(a, i);
      var erased := Emit(s.(selections := Without(a, i)), Changed(pos, false));
      if i == 0 {
        NextIdleKeeps(Emit(erased.(current := -1), Dump), rnd);
        SameElements(Without(a, i), Deselect(s, pos, rnd).selections);
      }
    }
  }

  lemma NextRunningKeeps(s: State, rnd: Shuffler)
    requires Shuffles(rnd) && Inv(s)
    ensures var t := NextRunning(s, rnd);
            Inv(t.(current := Head(t))) && t.selMode == s.selMode && t.stepMode == s.stepMode
  {
    if s.selections != [] {
      if s.stepMode == ONCE { DeselectKeeps(s, s.selections[0], rnd); } else { RotateKeeps(s, rnd); }
    }
  }

  lemma {:induction false} TrimKeeps(s: State)
    ensures Trim(s)
         == s.(selections := if |s.selections| <= 1 then s.selections else s.selections[..1], log := Trim(s).log)
    decreases |s.selections|
  {
    if |s.selections| > 1 {
      var last := |s.selections| - 1;
      TrimKeeps(Emit(s, Changed(s.selections[last], false)).(selections := s.selections[..last]));
    }
  }

  lemma DistinctSnoc(a: seq<Slot>, x: Slot)
    requires Distinct(a) && x !in a
    ensures Distinct(a + [x])
  {
  }

  lemma RemainSelected(a: seq<Slot>, b: seq<Slot>, pos: Slot)
    requires Distinct(a) && (b == a || multiset(b) == multiset(a) - multiset{pos})
    ensures forall x | x != pos :: x in b <==> x in a
  {
    assert forall x :: x in a <==> x in multiset(a);
    assert forall x :: x in b <==> x in multiset(b);
  }

  lemma SelectKeeps(s: State, pos: Slot, rnd: Shuffler)
    requires Shuffles(rnd) && Inv(s)
    ensures var t := Select(s, pos, rnd);
            Inv(t) && t.selMode == s.selMode && t.stepMode == s.stepMode
            && forall x :: x in t.selections <==> x == pos || (s.selMode != SINGLE && x in s.selections)
  {
    hide Deselect, NextIdle;
    var t := if pos in s.selections then Deselect(s, pos, rnd) else s;
    DeselectKeeps(s, pos, rnd);
    RemainSelected(s.selections, t.selections, pos);
    if s.selMode == SINGLE {
      var cleared := Emit(t.(selections := [], current := -1, log := AllOff(t.log, t.selections)), Dump);
      NextIdleKeeps(cleared.(selections := [pos]), rnd);
      SameElements([pos], Select(s, pos, rnd).selections);
    } else {
      DistinctSnoc(t.selections, pos);
    }
  }

  lemma ApplyKeeps(s: State, op: Op, rnd: Shuffler)
    requires Shuffles(rnd) && Inv(s)
    ensures Inv(Apply(s, op, rnd))
  {
    hide Select, Deselect, NextIdle, NextRunning, Trim;
    match op
    case OpSelect(pos, active) => if active { SelectKeeps(s, pos, rnd); } else { DeselectKeeps(s, pos, rnd); }
    case OpSelection(mode) => TrimKeeps(s);
    case OpStep(mode) =>
    case OpFetch =>
      NextIdleKeeps(s, rnd);
      NextRunningKeeps(s, rnd);
    case OpManual => NextRunningKeeps(s, rnd);
    case OpBeat => NextRunningKeeps(s, rnd);
    case OpClear => TrimKeeps(s);
  }

  /** In every reachable state no slot is selected twice, single selection holds at most one, and the slot playing is
      none or the head of the list. */
  lemma {:induction false} AlwaysConsistent(ops: seq<Op>, rnd: Shuffler)
    requires Shuffles(rnd)
    ensures Inv(Run(ops, rnd))
  {
    if ops != [] {
      AlwaysConsistent(ops[..|ops| - 1], rnd);
      ApplyKeeps(Run(ops[..|ops| - 1], rnd), ops[|ops| - 1], rnd);
    }
  }

  // What a listener shows

  /** What a listener shows as selected after one more signal, and after all of them. */
  function Toggle(lit: set<Slot>, e: Signal): set<Slot> {
    match e
    case Changed(pos, sel) => if sel then lit + {pos} else lit - {pos}
    case _ => lit
  }

  function Lit(log: seq<Signal>): set<Slot> {
    if log == [] then {} else Toggle(Lit(log[..|log| - 1]), log[|log| - 1])
  }

  lemma LitEmit(log: seq<Signal>, e: Signal)
    ensures Lit(log + [e]) == Toggle(Lit(log), e)
  {
    assert (log + [e])[..|log|] == log;
  }

  function Chosen(s: State): set<Slot> {
    set x | x in s.selections
  }

  /** The listener shows exactly the selected slots. */
  predicate Exact(s: State) {
    Lit(s.log) == Chosen(s)
  }

  /** The listener shows all selected slots but these dark ones. */
  predicate Shown(s: State, dark: set<Slot>) {
    dark <= Chosen(s) && Lit(s.log) == Chosen(s) - dark
  }

  lemma RotateShown(s: State, rnd: Shuffler, dark: set<Slot>)
    requires Shuffles(rnd) && s.selections != [] && Shown(s, dark)
    ensures Shown(Rotate(s, rnd), dark)
  {
    var t := Rotate(s, rnd);
    SameElements(s.selections, t.selections);
    LitEmit(s.log, t.log[|s.log|]);
    assert t.log == s.log + [t.log[|s.log|]];
  }

  /** The slots that are dark after each call: once mode turns the slot that is about to play off for the listener. */
  function DarkIdle(s: State, dark: set<Slot>): set<Slot> {
    if s.selections != [] && s.stepMode == ONCE then dark + {s.selections[0]} else dark
  }

  lemma NextIdleShown(s: State, rnd: Shuffler, dark: set<Slot>)
    requires Shuffles(rnd) && Shown(s, dark)
    ensures Shown(NextIdle(s, rnd), DarkIdle(s, dark))
  {
    if s.selections != [] {
      if s.stepMode == ONCE {
        LitEmit(s.log, Load(s.selections[0]));
        LitEmit(s.log + [Load(s.selections[0])], Changed(s.selections[0], false));
      } else {
        RotateShown(s, rnd, dark);
      }
    }
  }

  function DarkDeselect(s: State, pos: Slot, dark: set<Slot>): set<Slot> {
    if |s.selections| >= 2 && pos == s.selections[0] && s.stepMode == ONCE then dark - {pos} + {s.selections[1]}
    else dark - {pos}
  }

  lemma DeselectShown(s: State, pos: Slot, rnd: Shuffler, dark: set<Slot>)
    requires Shuffles(rnd) && Inv(s) && Shown(s, dark)
    ensures Shown(Deselect(s, pos, rnd), DarkDeselect(s, pos, dark))
  {
    hide NextIdle, Lit, Shown, Distinct;
    var i := IndexOf(s.selections, pos);
    if i == |s.selections| {
      NothingErased(s, pos, dark);
    } else {
      ErasedShown(s, i, dark);
      if i == 0 {
        var erased := Emit(s.(selections := Without(s.selections, 0)), Changed(pos, false));
        DumpShown(erased, dark - {pos});
        NextIdleShown(Emit(erased.(current := -1), Dump), rnd, dark - {pos});
      } else {
        DistinctAt(s.selections, i);
      }
    }
  }

  lemma DistinctAt(a: seq<Slot>, i: nat)
    requires Distinct(a) && 0 < i < |a|
    ensures a[i] != a[0]
  {
  }

  lemma NothingErased(s: State, pos: Slot, dark: set<Slot>)
    requires Shown(s, dark) && pos !in s.selections
    ensures Shown(s, DarkDeselect(s, pos, dark))
  {
    hide Lit;
    assert dark - {pos} == dark;
  }

  lemma ErasedShown(s: State, i: nat, dark: set<Slot>)
    requires Inv(s) && Shown(s, dark) && i < |s.selections|
    ensures var erased := Emit(s.(selections := Without(s.selections, i)), Changed(s.selections[i], false));
            Shown(erased, dark - {s.selections[i]})
  {
    hide Lit, Distinct;
    var pos := s.selections[i];
    var erased := Emit(s.(selections := Without(s.selections, i)), Changed(pos, false));
    WithoutKeeps(s.selections, i);
    RemainSelected(s.selections, erased.selections, pos);
    LitEmit(s.log, Changed(pos, false));
    assert Chosen(erased) == Chosen(s) - {pos};
  }

  lemma DumpShown(s: State, dark: set<Slot>)
    requires Shown(s, dark)
    ensures Shown(Emit(s.(current := -1), Dump), dark)
  {
    LitEmit(s.log, Dump);
  }

  lemma {:induction false} LitAllOff(log: seq<Signal>, a: seq<Slot>)
    ensures Lit(AllOff(log, a)) == Lit(log) - (set x | x in a)
    decreases |a|
  {
    if a != [] {
      LitEmit(log, Changed(a[0], false));
      LitAllOff(log + [Changed(a[0], false)], a[1..]);
    }
  }

  function DarkSelect(s: State, pos: Slot, dark: set<Slot>): set<Slot> {
    if s.selMode == SINGLE then {} else DarkDeselect(s, pos, dark) - {pos}
  }

  lemma SelectShown(s: State, pos: Slot, rnd: Shuffler, dark: set<Slot>)
    requires Shuffles(rnd) && Inv(s) && Shown(s, dark)
    ensures Shown(Select(s, pos, rnd), DarkSelect(s, pos, dark))
  {
    hide NextIdle, Deselect, Lit, Distinct, DarkDeselect;
    var t := if pos in s.selections then Deselect(s, pos, rnd) else s;
    DeselectKeeps(s, pos, rnd);
    DeselectShown(s, pos, rnd, dark);
    NotThere(s, pos, rnd);
    if t.selMode == SINGLE {
      var cleared := t.(selections := [], current := -1, log := AllOff(t.log, t.selections));
      LitAllOff(t.log, t.selections);
      LitEmit(cleared.log, Dump);
      SelectSingleShown(Emit(cleared, Dump), pos, rnd);
    } else {
      LitEmit(t.log, Changed(pos, true));
    }
  }

  lemma NotThere(s: State, pos: Slot, rnd: Shuffler)
    requires Shuffles(rnd)
    ensures pos !in s.selections ==> Deselect(s, pos, rnd) == s
  {
  }

  lemma OneIsDistinct(pos: Slot)
    ensures Distinct([pos])
  {
  }

  lemma SelectSingleShown(s: State, pos: Slot, rnd: Shuffler)
    requires Shuffles(rnd) && Lit(s.log) == {} && s.selections == []
    ensures Shown(Emit(NextIdle(s.(selections := [pos]), rnd), Changed(pos, true)), {})
  {
    hide NextIdle, Distinct, Lit;
    var one := s.(selections := [pos]);
    var t := NextIdle(one, rnd);
    OneIsDistinct(pos);
    NextIdleKeeps(one, rnd);
    NextIdleShown(one, rnd, {pos});
    SameElements([pos], t.selections);
    LitEmit(t.log, Changed(pos, true));
  }

  function DarkTrim(s: State, dark: set<Slot>): set<Slot> {
    if s.selections == [] then dark else dark * {s.selections[0]}
  }

  lemma {:induction false} TrimShown(s: State, dark: set<Slot>)
    requires Inv(s) && Shown(s, dark)
    ensures Shown(Trim(s), DarkTrim(s, dark))
    decreases |s.selections|
  {
    hide Lit, Shown;
    if |s.selections| > 1 {
      var last := |s.selections| - 1;
      LastOff(s, dark);
      var x := s.selections[last];
      TrimShown(Emit(s, Changed(x, false)).(selections := s.selections[..last]), dark - {x});
    } else {
      AtMostHead(s, dark);
    }
  }

  lemma AtMostHead(s: State, dark: set<Slot>)
    requires |s.selections| <= 1 && Shown(s, dark)
    ensures DarkTrim(s, dark) == dark
  {
  }

  /** Dropping the last selection. */
  lemma LastOff(s: State, dark: set<Slot>)
    requires Inv(s) && Shown(s, dark) && |s.selections| > 1
    ensures var last := |s.selections| - 1;
            var t := Emit(s, Changed(s.selections[last], false)).(selections := s.selections[..last]);
            Inv(t) && Shown(t, dark - {s.selections[last]})
            && DarkTrim(t, dark - {s.selections[last]}) == DarkTrim(s, dark)
  {
    hide Lit;
    var last := |s.selections| - 1;
    var x := s.selections[last];
    LitEmit(s.log, Changed(x, false));
    var t := Emit(s, Changed(x, false)).(selections := s.selections[..last]);
    assert s.selections == t.selections + [x];
    assert Chosen(t) == Chosen(s) - {x};
    assert t.selections[0] == s.selections[0] != x;
  }

  function DarkRunning(s: State, dark: set<Slot>): set<Slot> {
    if s.selections != [] && s.stepMode == ONCE then DarkDeselect(s, s.selections[0], dark) else dark
  }

  lemma NextRunningShown(s: State, rnd: Shuffler, dark: set<Slot>)
    requires Shuffles(rnd) && Inv(s) && Shown(s, dark)
    ensures Shown(NextRunning(s, rnd), DarkRunning(s, dark))
  {
    hide Deselect;
    if s.selections != [] {
      if s.stepMode == ONCE {
        var head := s.selections[0];
        var gone := Deselect(s, head, rnd);
        DeselectKeeps(s, head, rnd);
        DeselectShown(s, head, rnd, dark);
        if gone.selections != [] { LitEmit(gone.log, Load(gone.selections[0])); }
        var log := if gone.selections == [] then gone.log else gone.log + [Load(gone.selections[0])];
        LitEmit(log, Changed(head, false));
      } else {
        RotateShown(s, rnd, dark);
      }
    }
  }

  /** The dark slots after one call, from the list and those before it, without the signals. */
  function DarkStep(s: State, op: Op, dark: set<Slot>): set<Slot> {
    match op
    case OpSelect(pos, active) => if active then DarkSelect(s, pos, dark) else DarkDeselect(s, pos, dark)
    case OpSelection(mode) => if mode == SINGLE then DarkTrim(s, dark) else dark
    case OpStep(mode) => dark
    case OpFetch => if s.current == -1 then DarkIdle(s, dark) else DarkRunning(s, dark)
    case OpManual => dark
    case OpBeat => dark
    case OpClear => DarkTrim(s, dark)
  }

  lemma ApplyShown(s: State, op: Op, rnd: Shuffler, dark: set<Slot>)
    requires Shuffles(rnd) && Inv(s) && Shown(s, dark)
    ensures Shown(Apply(s, op, rnd), DarkStep(s, op, dark))
  {
    hide Select, Deselect, NextIdle, NextRunning, Trim, Lit, DarkSelect, DarkDeselect, DarkTrim;
    match op
    case OpSelect(pos, active) =>
      if active { SelectShown(s, pos, rnd, dark); } else { DeselectShown(s, pos, rnd, dark); }
    case OpSelection(mode) => TrimShown(s, dark);
    case OpStep(mode) =>
    case OpFetch =>
      NextIdleShown(s, rnd, dark);
      NextRunningShown(s, rnd, dark);
    case OpManual =>
      NextRunningShown(s, rnd, dark);
      LitEmit(NextRunning(s, rnd).log, Dump);
    case OpBeat =>
      NextRunningShown(s, rnd, dark);
      LitEmit(NextRunning(s, rnd).log, Dump);
    case OpClear =>
      TrimShown(s, dark);
      LitEmit(Trim(s).log, Dump);
  }

  /** The steps that turn off a slot which stays selected: in once mode, a fetch that starts playing a slot, and taking
      away the slot at the head while another one follows, by deselecting it or by selecting it again. */
  predicate Darkens(s: State, op: Op) {
    s.stepMode == ONCE
    && match op
       case OpFetch => if s.current == -1 then s.selections != [] else |s.selections| >= 2
       case OpSelect(pos, _) => |s.selections| >= 2 && pos == s.selections[0]
       case _ => false
  }

  /** From an exact state the listener stays exact if and only if the step is not one of those. */
  lemma ExactStep(s: State, op: Op, rnd: Shuffler)
    requires Shuffles(rnd) && Inv(s) && Exact(s)
    ensures Exact(Apply(s, op, rnd)) <==> !Darkens(s, op)
  {
    hide Apply, Lit;
    ApplyShown(s, op, rnd, {});
    var dark := DarkStep(s, op, {});
    assert Exact(Apply(s, op, rnd)) <==> dark == {};
    if |s.selections| >= 2 && s.stepMode == ONCE { assert s.selections[0] != s.selections[1]; }
  }

  /** The dark slots after a run. */
  function DarkAfter(ops: seq<Op>, rnd: Shuffler): set<Slot>
    requires Shuffles(rnd)
  {
    if ops == [] then {}
    else DarkStep(Run(ops[..|ops| - 1], rnd), ops[|ops| - 1], DarkAfter(ops[..|ops| - 1], rnd))
  }

  predicate NeverOnce(ops: seq<Op>) {
    forall i | 0 <= i < |ops| :: ops[i] != OpStep(ONCE)
  }

  /** After any run the signals show exactly the selected slots that are not dark, so never one that is not selected;
      and none is dark on a run that stays out of once mode. */
  lemma {:induction false} SignalsShowSelections(ops: seq<Op>, rnd: Shuffler)
    requires Shuffles(rnd)
    ensures Shown(Run(ops, rnd), DarkAfter(ops, rnd))
    ensures Exact(Run(ops, rnd)) <==> DarkAfter(ops, rnd) == {}
    ensures NeverOnce(ops) ==> DarkAfter(ops, rnd) == {} && Run(ops, rnd).stepMode != ONCE
  {
    if ops != [] {
      hide Apply, Inv, NeverOnce, Lit;
      var early, last := ops[..|ops| - 1], ops[|ops| - 1];
      var before := Run(early, rnd);
      SignalsShowSelections(early, rnd);
      AlwaysConsistent(early, rnd);
      NeverOnceSnoc(ops);
      ApplyShown(before, last, rnd, DarkAfter(early, rnd));
      ApplyStepMode(before, last, rnd);
    }
  }

  /** The listener is exact at every moment of a run. */
  predicate ExactThroughout(ops: seq<Op>, rnd: Shuffler)
    requires Shuffles(rnd)
  {
    Exact(Run(ops, rnd)) && (ops == [] || ExactThroughout(ops[..|ops| - 1], rnd))
  }

  /** No step of a run darkens a slot. */
  predicate NeverDarkens(ops: seq<Op>, rnd: Shuffler)
    requires Shuffles(rnd)
  {
    ops == []
    || (!Darkens(Run(ops[..|ops| - 1], rnd), ops[|ops| - 1]) && NeverDarkens(ops[..|ops| - 1], rnd))
  }

  /** Over a run the listener is exact at every moment if and only if no step of it darkens a slot. */
  lemma {:induction false} ExactUnlessDarkened(ops: seq<Op>, rnd: Shuffler)
    requires Shuffles(rnd)
    ensures ExactThroughout(ops, rnd) <==> NeverDarkens(ops, rnd)
  {
    if ops == [] {
      assert Exact(NEW);
    } else {
      hide Apply, Inv, Exact, Darkens;
      var early, last := ops[..|ops| - 1], ops[|ops| - 1];
      ExactUnlessDarkened(early, rnd);
      AlwaysConsistent(early, rnd);
      if ExactThroughout(early, rnd) { ExactStep(Run(early, rnd), last, rnd); }
    }
  }

  lemma NeverOnceSnoc(ops: seq<Op>)
    requires ops != []
    ensures NeverOnce(ops) <==> NeverOnce(ops[..|ops| - 1]) && ops[|ops| - 1] != OpStep(ONCE)
  {
    assert ops == ops[..|ops| - 1] + [ops[|ops| - 1]];
  }

  lemma ApplyStepMode(s: State, op: Op, rnd: Shuffler)
    requires Shuffles(rnd) && Inv(s)
    ensures Apply(s, op, rnd).stepMode == if op.OpStep? then op.stepMode else s.stepMode
  {
    hide Select, Deselect, NextIdle, NextRunning, Trim;
    match op
    case OpSelect(pos, active) => if active { SelectKeeps(s, pos, rnd); } else { DeselectKeeps(s, pos, rnd); }
    case OpSelection(mode) => TrimKeeps(s);
    case OpStep(mode) =>
    case OpFetch =>
      NextIdleKeeps(s, rnd);
      NextRunningKeeps(s, rnd);
    case OpManual => NextRunningKeeps(s, rnd);
    case OpBeat => NextRunningKeeps(s, rnd);
    case OpClear => TrimKeeps(s);
  }

  /** Once mode darkens the slot that starts playing: a fetch that starts an idle list keeps every selection but turns
      its head off for the listener. */
  lemma OnceDarkensHead(s: State, rnd: Shuffler)
    requires Shuffles(rnd) && s.stepMode == ONCE && s.current == -1 && s.selections != []
    ensures var t := Fetch(s, rnd);
            t.selections == s.selections && t.current == s.selections[0] && Lit(t.log) == Lit(s.log) - {s.selections[0]}
  {
    LitEmit(s.log, Load(s.selections[0]));
    LitEmit(s.log + [Load(s.selections[0])], Changed(s.selections[0], false));
  }

  // Fetching the next slot to play, again and again

  /** The slots that n fetches return. */
  function Fetches(s: State, n: nat, rnd: Shuffler): (r: (seq<int>, State))
    requires Shuffles(rnd)
    ensures |r.0| == n
    decreases n
  {
    if n == 0 then ([], s)
    else
      var t := Fetch(s, rnd);
      var rest := Fetches(t, n - 1, rnd);
      ([t.current] + rest.0, rest.1)
  }

  function Turned(a: seq<Slot>, j: nat): seq<Slot>
    requires j <= |a|
  {
    a[j..] + a[..j]
  }

  lemma LoopFetch(s: State, a: seq<Slot>, j: nat, rnd: Shuffler)
    requires Shuffles(rnd) && s.stepMode == LOOP && s.selMode != SHUFFLE && j < |a| && s.selections == Turned(a, j)
    ensures var t := Fetch(s, rnd);
            t.selections == Turned(a, j + 1) && t.current == a[if j + 1 == |a| then 0 else j + 1]
            && t.stepMode == LOOP && t.selMode == s.selMode
  {
    var turned := s.selections[1..] + [s.selections[0]];
    assert turned == Turned(a, j + 1);
  }

  /** What m fetches return from the list turned j places. */
  function LoopList(a: seq<Slot>, j: nat, m: nat): seq<int>
    requires j + m <= |a|
    decreases m
  {
    if m == 0 then [] else [a[if j + 1 == |a| then 0 else j + 1]] + LoopList(a, j + 1, m - 1)
  }

  lemma {:induction false} LoopListIs(a: seq<Slot>, j: nat, m: nat)
    requires j + m == |a| && m > 0
    ensures LoopList(a, j, m) == a[j + 1..] + [a[0]]
    decreases m
  {
    if m > 1 {
      LoopListIs(a, j + 1, m - 1);
      assert a[j + 1..] == [a[j + 1]] + a[j + 2..];
    }
  }

  lemma {:induction false} LoopFrom(s: State, a: seq<Slot>, j: nat, m: nat, rnd: Shuffler)
    requires Shuffles(rnd) && s.stepMode == LOOP && s.selMode != SHUFFLE && j + m <= |a| && s.selections == Turned(a, j)
    ensures var r := Fetches(s, m, rnd); r.1.selections == Turned(a, j + m) && r.0 == LoopList(a, j, m)
    decreases m
  {
    hide Fetch, Turned;
    if m > 0 {
      LoopFetch(s, a, j, rnd);
      LoopFrom(Fetch(s, rnd), a, j + 1, m - 1, rnd);
    }
  }

  lemma TurnedFully(a: seq<Slot>)
    ensures Turned(a, 0) == a == Turned(a, |a|)
  {
  }

  /** Looping without shuffling, as many fetches as there are selections return each of them once, the head last,
      and leave the list as it was. */
  lemma LoopVisitsAll(s: State, rnd: Shuffler)
    requires Shuffles(rnd) && s.stepMode == LOOP && s.selMode != SHUFFLE && s.selections != []
    ensures var r := Fetches(s, |s.selections|, rnd);
            r.0 == s.selections[1..] + [s.selections[0]] && r.1.selections == s.selections
  {
    hide Fetches, LoopList, Turned;
    var a := s.selections;
    TurnedFully(a);
    LoopFrom(s, a, 0, |a|, rnd);
    LoopListIs(a, 0, |a|);
  }

  /** In once mode the slot that was playing is dropped and the next one plays. */
  lemma OnceFetch(s: State, rnd: Shuffler)
    requires Shuffles(rnd) && Distinct(s.selections) && s.stepMode == ONCE && (s.current == -1 || s.current == Head(s))
    ensures var t := Fetch(s, rnd);
            t.stepMode == ONCE && t.current == Head(t)
            && t.selections == if s.current == -1 || s.selections == [] then s.selections else s.selections[1..]
  {
    if s.current != -1 && s.selections != [] {
      assert IndexOf(s.selections, s.selections[0]) == 0;
      assert Without(s.selections, 0) == s.selections[1..];
    }
  }

  lemma TailDistinct(a: seq<Slot>)
    requires Distinct(a) && a != []
    ensures Distinct(a[1..])
  {
  }

  /** The slots in order, then -1 for ever. */
  function OnceList(a: seq<Slot>, n: nat): seq<int>
    decreases n
  {
    if n == 0 then [] else if a == [] then [-1] + OnceList(a, n - 1) else [a[0]] + OnceList(a[1..], n - 1)
  }

  lemma {:induction false} OnceListIs(a: seq<Slot>, n: nat)
    ensures |OnceList(a, n)| == n && forall i | 0 <= i < n :: OnceList(a, n)[i] == if i < |a| then a[i] else -1
    decreases n
  {
    if n > 0 { OnceListIs(if a == [] then a else a[1..], n - 1); }
  }

  lemma {:induction false} OnceRunning(s: State, n: nat, rnd: Shuffler)
    requires Shuffles(rnd) && Distinct(s.selections) && s.stepMode == ONCE && s.current == Head(s)
    ensures Fetches(s, n, rnd).0 == OnceList(if s.selections == [] then [] else s.selections[1..], n)
    decreases n
  {
    hide Fetch, Distinct;
    if n > 0 {
      OnceFetch(s, rnd);
      if s.selections != [] { TailDistinct(s.selections); }
      OnceRunning(Fetch(s, rnd), n - 1, rnd);
    }
  }

  /** Starting from idle, once mode plays the selections in order and then nothing, however often it is asked. */
  lemma OnceInOrder(s: State, n: nat, rnd: Shuffler)
    requires Shuffles(rnd) && Distinct(s.selections) && s.stepMode == ONCE && s.current == -1
    ensures forall i | 0 <= i < n :: Fetches(s, n, rnd).0[i] == if i < |s.selections| then s.selections[i] else -1
  {
    hide Fetch, Distinct;
    if n > 0 {
      OnceFetch(s, rnd);
      OnceRunning(Fetch(s, rnd), n - 1, rnd);
      OnceListIs(s.selections, n);
    }
  }

  /** Out of once mode, fetching and stepping lose and invent no selection, shuffled or not. */
  lemma {:induction false} FetchesConserve(s: State, n: nat, rnd: Shuffler)
    requires Shuffles(rnd) && s.stepMode != ONCE
    ensures multiset(Fetches(s, n, rnd).1.selections) == multiset(s.selections)
    decreases n
  {
    if n > 0 { FetchesConserve(Fetch(s, rnd), n - 1, rnd); }
  }

  /** In manual and beat mode asking again changes nothing while something plays. */
  lemma {:induction false} FetchesHold(s: State, n: nat, rnd: Shuffler)
    requires Shuffles(rnd) && (s.stepMode == MANUAL || s.stepMode == BEAT) && s.current != -1
    ensures Fetches(s, n, rnd).1 == s && forall i | 0 <= i < n :: Fetches(s, n, rnd).0[i] == s.current
    decreases n
  {
    if n > 0 {
      FetchesHold(s, n - 1, rnd);
      forall i | 0 <= i < n
        ensures Fetches(s, n, rnd).0[i] == s.current
      {
        if i > 0 { assert Fetches(s, n, rnd).0[i] == Fetches(s, n - 1, rnd).0[i - 1]; }
      }
    }
  }

  // What the calls add to the signals and take from the list

  predicate Extends(s: State, t: State) {
    s.log <= t.log && forall x | x in t.selections :: x in s.selections
  }

  lemma NextIdleExtends(s: State, rnd: Shuffler)
    requires Shuffles(rnd)
    ensures Extends(s, NextIdle(s, rnd))
  {
    if s.selections != [] && s.stepMode != ONCE { SameElements(s.selections, Rotate(s, rnd).selections); }
  }

  lemma DeselectExtends(s: State, pos: Slot, rnd: Shuffler)
    requires Shuffles(rnd)
    ensures Extends(s, Deselect(s, pos, rnd))
  {
    hide NextIdle;
    var i := IndexOf(s.selections, pos);
    if i == 0 && s.selections != [] {
      var erased := Emit(s.(selections := Without(s.selections, i)), Changed(pos, false));
      NextIdleExtends(Emit(erased.(current := -1), Dump), rnd);
    }
  }

  /** A fetch adds signals, adds no selection, and plays a selected slot or none. */
  lemma FetchLogs(s: State, rnd: Shuffler)
    requires Shuffles(rnd)
    ensures Extends(s, Fetch(s, rnd))
    ensures s.current == -1 || s.current == Head(s) ==>
              Fetch(s, rnd).current == -1 || Fetch(s, rnd).current in Fetch(s, rnd).selections
  {
    hide Deselect;
    NextIdleExtends(s, rnd);
    if s.selections != [] {
      if s.stepMode == ONCE {
        DeselectExtends(s, s.selections[0], rnd);
      } else {
        SameElements(s.selections, Rotate(s, rnd).selections);
      }
    }
  }

  lemma {:induction false} AllOffLogs(log: seq<Signal>, a: seq<Slot>)
    ensures log <= AllOff(log, a)
    decreases |a|
  {
    if a != [] { AllOffLogs(log + [Changed(a[0], false)], a[1..]); }
  }

  lemma {:induction false} TrimLogs(s: State)
    ensures s.log <= Trim(s).log
    decreases |s.selections|
  {
    if |s.selections| > 1 {
      var last := |s.selections| - 1;
      TrimLogs(Emit(s, Changed(s.selections[last], false)).(selections := s.selections[..last]));
    }
  }

  lemma SelectLogs(s: State, pos: Slot, rnd: Shuffler)
    requires Shuffles(rnd)
    ensures s.log <= Select(s, pos, rnd).log
  {
    hide Deselect, NextIdle;
    DeselectExtends(s, pos, rnd);
    var t := if pos in s.selections then Deselect(s, pos, rnd) else s;
    AllOffLogs(t.log, t.selections);
    var cleared := t.(selections := [], current := -1, log := AllOff(t.log, t.selections));
    NextIdleExtends(Emit(cleared, Dump).(selections := [pos]), rnd);
  }

  /** No call takes back a signal. */
  lemma ApplyLogs(s: State, op: Op, rnd: Shuffler)
    requires Shuffles(rnd)
    ensures s.log <= Apply(s, op, rnd).log
  {
    hide Deselect, NextIdle;
    match op
    case OpSelect(pos, active) =>
      DeselectExtends(s, pos, rnd);
      SelectLogs(s, pos, rnd);
    case OpSelection(mode) => TrimLogs(s);
    case OpStep(mode) =>
    case OpFetch => FetchLogs(s, rnd);
    case OpManual => NextRunningLogs(s, rnd);
    case OpBeat => NextRunningLogs(s, rnd);
    case OpClear => TrimLogs(s);
  }

  lemma NextRunningLogs(s: State, rnd: Shuffler)
    requires Shuffles(rnd)
    ensures s.log <= NextRunning(s, rnd).log
  {
    hide Deselect;
    if s.selections != [] { DeselectExtends(s, s.selections[0], rnd); }
  }

  // The object

  class List {
    var selections: seq<Slot>
    var currentIndex: int
    var selMode: SelectionMode
    var stepMode: StepMode
    var log: seq<Signal>
    var draws: nat
    const rnd: Shuffler

    ghost predicate Valid() reads this { Shuffles(rnd) }

    function View(): State reads this { State(selections, currentIndex, selMode, stepMode, log, draws) }

    constructor (rnd: Shuffler)
      requires Shuffles(rnd)
      ensures Valid() && View() == NEW && this.rnd == rnd
    {
      this.rnd := rnd;
      selections, currentIndex, selMode, stepMode, log, draws := [], -1, SINGLE, LOOP, [], 0;
    }

    method Signalled(e: Signal)
      modifies this`log
      ensures View() == Emit(old(View()), e)
    {
      log := log + [e];
    }

    /** The deselecting half of PlaybackList::select. */
    method DeselectSlot(pos: Slot)
      requires Valid()
      modifies this
      ensures View() == Deselect(old(View()), pos, rnd)
      decreases 1
    {
      var i := 0;
      while i < |selections|
        invariant i <= |selections| && View() == old(View()) && forall j | 0 <= j < i :: selections[j] != pos
      {
        if selections[i] == pos {
          assert i == IndexOf(selections, pos);
          selections := selections[..i] + selections[i + 1..];
          Signalled(Changed(pos, false));
          if i == 0 {
            currentIndex := -1;
            Signalled(Dump);
            var _ := NextSlot(false);
          }
          return;
        }
        i := i + 1;
      }
    }

    /** Announcing that everything is off. */
    method SignalAllOff()
      modifies this`log
      ensures View() == old(View()).(log := AllOff(old(log), selections))
    {
      for k := 0 to |selections|
        invariant AllOff(old(log), selections) == AllOff(log, selections[k..])
      {
        assert selections[k..][1..] == selections[k + 1..];
        Signalled(Changed(selections[k], false));
      }
    }

    /** PlaybackList::select. It and next call each other; the measure shows that they stop. */
    method SelectSlot(pos: Slot, active: bool)
      requires Valid()
      modifies this
      ensures View() == if active then Select(old(View()), pos, rnd) else Deselect(old(View()), pos, rnd)
      decreases if active then 4 else 2
    {
      hide Deselect, NextIdle, AllOff;
      if !active {
        DeselectSlot(pos);
      } else {
        var i := 0;
        while i < |selections| && selections[i] != pos
          invariant i <= |selections| && View() == old(View()) && forall j | 0 <= j < i :: selections[j] != pos
        {
          i := i + 1;
        }
        if i < |selections| { SelectSlot(pos, false); }
        if selMode == SINGLE {
          SignalAllOff();
          selections := [];
          currentIndex := -1;
          Signalled(Dump);
          selections := selections + [pos];
          assert selections == [pos];
          var _ := NextSlot(false);
          Signalled(Changed(pos, true));
        } else {
          selections := selections + [pos];
          Signalled(Changed(pos, true));
        }
      }
    }

    /** The looping cases of next. */
    method TurnList()
      requires Valid() && |selections| != 0
      modifies this
      ensures View() == Rotate(old(View()), rnd)
    {
      ghost var turned := selections[1..] + [selections[0]];
      selections := selections + [selections[0]];
      selections := selections[1..];
      assert selections == turned;
      if selMode == SHUFFLE {
        selections := rnd(draws, selections);
        draws := draws + 1;
        assert |multiset(selections)| == |multiset(turned)|;
      }
      Signalled(Load(selections[0]));
    }

    /** PlaybackList::next. */
    method NextSlot(running: bool) returns (head: int)
      requires Valid()
      modifies this
      ensures View() == if running then NextRunning(old(View()), rnd) else NextIdle(old(View()), rnd)
      ensures head == Head(View())
      decreases if running then 3 else 0
    {
      if |selections| != 0 {
        var oldsel := selections[0];
        match stepMode {
          case ONCE =>
            if running { SelectSlot(oldsel, false); }
            if |selections| != 0 { Signalled(Load(selections[0])); }
            Signalled(Changed(oldsel, false));
          case _ => TurnList();
        }
      }
      head := if |selections| != 0 then selections[0] else -1;
    }

    method SetSelectionMode(mode: SelectionMode)
      modifies this
      ensures View() == SetSelection(old(View()), mode)
    {
      if mode == SINGLE { TrimList(); }
      selMode := mode;
    }

    /** The loop that drops selections from the back, in setSelectionMode and clear. */
    method TrimList()
      modifies this
      ensures View() == Trim(old(View()))
    {
      while |selections| > 1
        invariant Trim(View()) == Trim(old(View()))
        decreases |selections|
      {
        ghost var before := View();
        Signalled(Changed(selections[|selections| - 1], false));
        selections := selections[..|selections| - 1];
        assert Trim(before) == Trim(View());
      }
    }

    method SetStepMode(mode: StepMode)
      modifies this
      ensures View() == old(View()).(stepMode := mode)
    {
      stepMode := mode;
    }

    method BeatDetected()
      requires Valid()
      modifies this
      ensures View() == Trigger(old(View()), BEAT, rnd)
    {
      if stepMode == BEAT {
        currentIndex := NextSlot(true);
        Signalled(Dump);
      }
    }

    method ManualStepClicked()
      requires Valid()
      modifies this
      ensures View() == Trigger(old(View()), MANUAL, rnd)
    {
      if stepMode == MANUAL {
        currentIndex := NextSlot(true);
        Signalled(Dump);
      }
    }

    method ClearList()
      modifies this
      ensures View() == Clear(old(View()))
    {
      TrimList();
      currentIndex := -1;
      Signalled(Dump);
    }

    /** PlaybackList::getNextFramesource. */
    method GetNextFrameSource() returns (slot: int)
      requires Valid()
      modifies this
      ensures View() == Fetch(old(View()), rnd) && slot == View().current
    {
      if stepMode == ONCE || stepMode == LOOP || currentIndex == -1 {
        currentIndex := NextSlot(currentIndex != -1);
      }
      slot := currentIndex;
    }

    method IsSelected(sel: Slot) returns (found: bool)
      ensures found <==> sel in selections
    {
      found := false;
      for i := 0 to |selections|
        invariant !found && forall j | 0 <= j < i :: selections[j] != sel
      {
        if selections[i] == sel { return true; }
      }
    }
  }
}
