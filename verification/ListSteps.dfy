/** What single calls on the play list do, slot by slot and signal by signal, and what they do to a head. */
module ListSteps {
  import opened PlaybackList

  // Adding and taking away

  /** Outside single mode a new slot goes to the back; nothing else changes. */
  lemma SelectAppends(s: State, pos: Slot, rnd: Shuffler)
    requires Shuffles(rnd) && s.selMode != SINGLE && pos !in s.selections
    ensures Apply(s, OpSelect(pos, true), rnd)
         == s.(selections := s.selections + [pos], log := s.log + [Changed(pos, true)])
  {
  }

  /** In single mode the slot is alone, and nothing plays until the next fetch. */
  lemma SelectReplaces(s: State, pos: Slot, rnd: Shuffler)
    requires Shuffles(rnd) && Inv(s) && s.selMode == SINGLE
    ensures var t := Apply(s, OpSelect(pos, true), rnd);
            t.selections == [pos] && t.current == -1 && t.selMode == s.selMode && t.stepMode == s.stepMode
  {
    hide Deselect;
    DeselectKeeps(s, pos, rnd);
    SelectKeeps(s, pos, rnd);
    var t := Apply(s, OpSelect(pos, true), rnd);
    assert pos in t.selections && |t.selections| <= 1;
  }

  /** A selected slot that is selected again goes to the back as well. */
  lemma SelectMoves(s: State, pos: Slot, rnd: Shuffler)
    requires Shuffles(rnd) && Inv(s) && s.selMode != SINGLE && pos in s.selections
    ensures var gone := Apply(s, OpSelect(pos, false), rnd);
            Apply(s, OpSelect(pos, true), rnd)
            == gone.(selections := gone.selections + [pos], log := gone.log + [Changed(pos, true)])
  {
    hide Deselect;
    DeselectKeeps(s, pos, rnd);
  }

  /** Taking away a slot leaves the order of the others, unless it was the head: then the list moves on by one at once,
      except in once mode, and nothing plays until the next fetch. */
  lemma DeselectLeaves(s: State, pos: Slot, i: nat, rnd: Shuffler)
    requires Shuffles(rnd) && Inv(s) && i < |s.selections| && s.selections[i] == pos
    ensures var t, a := Apply(s, OpSelect(pos, false), rnd), s.selections;
            t.selMode == s.selMode && t.stepMode == s.stepMode
            && (i > 0 ==> t.selections == a[..i] + a[i + 1..] && t.current == s.current
                          && t.log == s.log + [Changed(pos, false)])
            && (i == 0 ==> t.current == -1)
            && (i == 0 && (s.stepMode == ONCE || |a| == 1) ==> t.selections == a[1..])
            && (i == 0 && s.stepMode != ONCE && s.selMode != SHUFFLE && |a| >= 2 ==> t.selections == a[2..] + [a[1]])
  {
    var k := IndexOf(s.selections, pos);
    assert k == i;
    if i == 0 { assert Without(s.selections, 0) == s.selections[1..]; }
  }

  lemma DeselectNothing(s: State, pos: Slot, rnd: Shuffler)
    requires Shuffles(rnd) && pos !in s.selections
    ensures Apply(s, OpSelect(pos, false), rnd) == s
  {
  }

  /** Changing the modes and clearing. */
  lemma ModesChange(s: State, selMode: SelectionMode, stepMode: StepMode, rnd: Shuffler)
    requires Shuffles(rnd)
    ensures Apply(s, OpStep(stepMode), rnd)
         == State(s.selections, s.current, s.selMode, stepMode, s.log, s.draws)
    ensures selMode != SINGLE ==>
              Apply(s, OpSelection(selMode), rnd)
              == State(s.selections, s.current, selMode, s.stepMode, s.log, s.draws)
    ensures var t := Apply(s, OpSelection(SINGLE), rnd);
            t.selMode == SINGLE && t.stepMode == s.stepMode && t.current == s.current
            && t.selections == if s.selections == [] then [] else [s.selections[0]]
    ensures var t := Apply(s, OpClear, rnd);
            t.current == -1 && t.selMode == s.selMode && t.stepMode == s.stepMode
            && t.selections == if s.selections == [] then [] else [s.selections[0]]
  {
    TrimKeeps(s);
  }

  // Stepping

  /** The call that steps the list in this mode. */
  function StepOf(mode: StepMode): Op
    requires mode == MANUAL || mode == BEAT
  {
    if mode == MANUAL then OpManual else OpBeat
  }

  /** A click in manual mode, or a beat in beat mode, sends the head to the back, makes the next slot the one playing,
      and has the old one dumped. */
  lemma StepTurns(s: State, rnd: Shuffler)
    requires Shuffles(rnd) && (s.stepMode == MANUAL || s.stepMode == BEAT)
    requires s.selMode != SHUFFLE && s.selections != []
    ensures var turned := s.selections[1..] + [s.selections[0]];
            Apply(s, StepOf(s.stepMode), rnd)
            == State(turned, turned[0], s.selMode, s.stepMode, s.log + [Load(turned[0]), Dump], s.draws)
  {
  }

  /** Shuffling, the slot playing is the head of some order of the same slots. */
  lemma StepShuffles(s: State, rnd: Shuffler)
    requires Shuffles(rnd) && (s.stepMode == MANUAL || s.stepMode == BEAT)
    requires s.selMode == SHUFFLE && s.selections != []
    ensures var t := Apply(s, StepOf(s.stepMode), rnd);
            multiset(t.selections) == multiset(s.selections) && t.selections != []
            && t.selections == rnd(s.draws, s.selections[1..] + [s.selections[0]]) && t.draws == s.draws + 1
            && t.current == t.selections[0] && t.log == s.log + [Load(t.selections[0]), Dump]
            && t.selMode == s.selMode && t.stepMode == s.stepMode
  {
    var t := Apply(s, StepOf(s.stepMode), rnd);
    SameElements(s.selections, t.selections);
    assert s.selections[0] in s.selections;
  }

  /** With nothing selected there is nothing to play, but a dump all the same. */
  lemma StepEmpty(s: State, rnd: Shuffler)
    requires Shuffles(rnd) && (s.stepMode == MANUAL || s.stepMode == BEAT) && s.selections == []
    ensures Apply(s, StepOf(s.stepMode), rnd) == s.(current := -1, log := s.log + [Dump])
  {
  }

  /** In any other step mode clicks and beats change nothing. */
  lemma StepIgnored(s: State, rnd: Shuffler)
    requires Shuffles(rnd)
    ensures s.stepMode != MANUAL ==> Apply(s, OpManual, rnd) == s
    ensures s.stepMode != BEAT ==> Apply(s, OpBeat, rnd) == s
  {
  }

  // Fetching

  /** A fetch that moves on, in loop mode or when nothing plays, does the same as a step but for the dump. */
  lemma FetchTurns(s: State, rnd: Shuffler)
    requires Shuffles(rnd) && s.stepMode != ONCE && (s.stepMode == LOOP || s.current == -1)
    requires s.selMode != SHUFFLE && s.selections != []
    ensures var turned := s.selections[1..] + [s.selections[0]];
            Apply(s, OpFetch, rnd)
            == State(turned, turned[0], s.selMode, s.stepMode, s.log + [Load(turned[0])], s.draws)
  {
  }

  lemma FetchShuffles(s: State, rnd: Shuffler)
    requires Shuffles(rnd) && s.stepMode != ONCE && (s.stepMode == LOOP || s.current == -1)
    requires s.selMode == SHUFFLE && s.selections != []
    ensures var t := Apply(s, OpFetch, rnd);
            t.selections == rnd(s.draws, s.selections[1..] + [s.selections[0]]) && t.selections != []
            && t == State(t.selections, t.selections[0], SHUFFLE, s.stepMode, s.log + [Load(t.selections[0])],
                          s.draws + 1)
  {
    var t := Apply(s, OpFetch, rnd);
    SameElements(s.selections, t.selections);
    assert s.selections[0] in s.selections;
  }

  /** In once mode an idle list starts with its head; after that each fetch drops the head and goes on with the next. */
  lemma FetchOnce(s: State, rnd: Shuffler)
    requires Shuffles(rnd) && Inv(s) && s.stepMode == ONCE && s.selections != []
    ensures var t, a := Apply(s, OpFetch, rnd), s.selections;
            t.selMode == s.selMode && t.stepMode == ONCE && t.draws == s.draws
            && if s.current == -1
               then t.selections == a && t.current == a[0] && t.log == s.log + [Load(a[0]), Changed(a[0], false)]
               else if |a| == 1
               then t.selections == [] && t.current == -1
                    && t.log == s.log + [Changed(a[0], false), Dump, Changed(a[0], false)]
               else t.selections == a[1..] && t.current == a[1]
                    && t.log == s.log + [Changed(a[0], false), Dump, Load(a[1]), Changed(a[1], false), Load(a[1]),
                                         Changed(a[0], false)]
  {
    if s.current != -1 {
      assert IndexOf(s.selections, s.selections[0]) == 0;
      assert Without(s.selections, 0) == s.selections[1..];
    }
  }

  /** The slots that play after each of n steps, and the list after them. */
  function Steps(s: State, n: nat, rnd: Shuffler): (r: (seq<int>, State))
    requires Shuffles(rnd) && (s.stepMode == MANUAL || s.stepMode == BEAT)
    ensures |r.0| == n
    decreases n
  {
    if n == 0 then ([], s)
    else
      NextRunningModes(s, rnd);
      var t := Apply(s, StepOf(s.stepMode), rnd);
      var rest := Steps(t, n - 1, rnd);
      ([t.current] + rest.0, rest.1)
  }

  lemma NextRunningModes(s: State, rnd: Shuffler)
    requires Shuffles(rnd) && (s.stepMode == MANUAL || s.stepMode == BEAT)
    ensures Apply(s, StepOf(s.stepMode), rnd).stepMode == s.stepMode
    ensures Apply(s, StepOf(s.stepMode), rnd).selMode == s.selMode
  {
  }

  lemma {:induction false} StepsFrom(s: State, a: seq<Slot>, j: nat, m: nat, rnd: Shuffler)
    requires Shuffles(rnd) && (s.stepMode == MANUAL || s.stepMode == BEAT) && s.selMode != SHUFFLE
    requires j + m <= |a| && s.selections == Turned(a, j)
    ensures Steps(s, m, rnd).1.selections == Turned(a, j + m) && Steps(s, m, rnd).0 == LoopList(a, j, m)
    decreases m
  {
    hide Apply, Turned;
    if m > 0 {
      StepOnTurned(s, a, j, rnd);
      NextRunningModes(s, rnd);
      StepsFrom(Apply(s, StepOf(s.stepMode), rnd), a, j + 1, m - 1, rnd);
    }
  }

  lemma StepOnTurned(s: State, a: seq<Slot>, j: nat, rnd: Shuffler)
    requires Shuffles(rnd) && (s.stepMode == MANUAL || s.stepMode == BEAT) && s.selMode != SHUFFLE
    requires j < |a| && s.selections == Turned(a, j)
    ensures var t := Apply(s, StepOf(s.stepMode), rnd);
            t.selections == Turned(a, j + 1) && t.current == a[if j + 1 == |a| then 0 else j + 1]
  {
    hide Apply;
    StepTurns(s, rnd);
    assert s.selections[1..] + [s.selections[0]] == Turned(a, j + 1);
  }

  /** As many steps as there are selections play each of them once, the head last, and restore the list. */
  lemma StepsVisitAll(s: State, rnd: Shuffler)
    requires Shuffles(rnd) && (s.stepMode == MANUAL || s.stepMode == BEAT)
    requires s.selMode != SHUFFLE && s.selections != []
    ensures var r := Steps(s, |s.selections|, rnd);
            r.0 == s.selections[1..] + [s.selections[0]] && r.1.selections == s.selections
  {
    TurnedFully(s.selections);
    StepsFrom(s, s.selections, 0, |s.selections|, rnd);
    LoopListIs(s.selections, 0, |s.selections|);
  }

  // Dumps

  /** The signals added between two states contain a dump, or not. */
  predicate Adds(s: State, t: State, dump: bool) {
    s.log <= t.log && (Dump in t.log[|s.log|..] <==> dump)
  }

  lemma AddsThen(s: State, t: State, u: State, d: bool, e: bool)
    requires Adds(s, t, d) && Adds(t, u, e)
    ensures Adds(s, u, d || e)
  {
    assert u.log[|s.log|..] == t.log[|s.log|..] + u.log[|t.log|..];
  }

  lemma AddsOne(s: State, t: State, e: Signal)
    requires t.log == s.log + [e]
    ensures Adds(s, t, e == Dump)
  {
    assert t.log[|s.log|..] == [e];
  }

  lemma AddsNone(s: State, t: State)
    requires t.log == s.log
    ensures Adds(s, t, false)
  {
    assert t.log[|s.log|..] == [];
  }

  lemma IdleAdds(s: State, rnd: Shuffler)
    requires Shuffles(rnd)
    ensures Adds(s, NextIdle(s, rnd), false)
  {
    var t := NextIdle(s, rnd);
    if s.selections == [] {
      AddsNone(s, t);
    } else if s.stepMode == ONCE {
      assert t.log[|s.log|..] == [Load(s.selections[0]), Changed(s.selections[0], false)];
    } else {
      AddsOne(s, t, t.log[|s.log|]);
    }
  }

  lemma DeselectAdds(s: State, pos: Slot, rnd: Shuffler)
    requires Shuffles(rnd)
    ensures Adds(s, Deselect(s, pos, rnd), s.selections != [] && pos == s.selections[0])
  {
    hide NextIdle, Adds;
    var i := IndexOf(s.selections, pos);
    if i == |s.selections| {
      AddsNone(s, s);
    } else {
      var erased := Emit(s.(selections := Without(s.selections, i)), Changed(pos, false));
      AddsOne(s, erased, Changed(pos, false));
      if i == 0 {
        var idle := Emit(erased.(current := -1), Dump);
        AddsOne(erased, idle, Dump);
        AddsThen(s, erased, idle, false, true);
        IdleAdds(idle, rnd);
        AddsThen(s, idle, NextIdle(idle, rnd), true, false);
      }
    }
  }

  lemma {:induction false} AllOffAdds(log: seq<Signal>, a: seq<Slot>)
    ensures log <= AllOff(log, a) && Dump !in AllOff(log, a)[|log|..]
    decreases |a|
  {
    if a == [] {
      assert log[|log|..] == [];
    } else {
      var more := log + [Changed(a[0], false)];
      AllOffAdds(more, a[1..]);
      assert AllOff(more, a[1..])[|log|..] == [Changed(a[0], false)] + AllOff(more, a[1..])[|more|..];
    }
  }

  lemma {:induction false} TrimAdds(s: State)
    ensures Adds(s, Trim(s), false)
    decreases |s.selections|
  {
    if |s.selections| <= 1 {
      AddsNone(s, s);
    } else {
      var last := |s.selections| - 1;
      var t := Emit(s, Changed(s.selections[last], false)).(selections := s.selections[..last]);
      AddsOne(s, t, Changed(s.selections[last], false));
      TrimAdds(t);
      AddsThen(s, t, Trim(t), false, false);
    }
  }

  lemma RunningAdds(s: State, rnd: Shuffler)
    requires Shuffles(rnd)
    ensures Adds(s, NextRunning(s, rnd), s.selections != [] && s.stepMode == ONCE)
  {
    hide Deselect, Adds;
    var t := NextRunning(s, rnd);
    if s.selections == [] {
      AddsNone(s, t);
    } else if s.stepMode == ONCE {
      var head := s.selections[0];
      var gone := Deselect(s, head, rnd);
      DeselectAdds(s, head, rnd);
      var loaded := if gone.selections == [] then gone else Emit(gone, Load(gone.selections[0]));
      if gone.selections == [] {
        AddsNone(gone, loaded);
      } else {
        AddsOne(gone, loaded, Load(gone.selections[0]));
      }
      AddsThen(s, gone, loaded, true, false);
      AddsOne(loaded, t, Changed(head, false));
      AddsThen(s, loaded, t, true, false);
    } else {
      AddsOne(s, t, t.log[|s.log|]);
    }
  }

  /** The calls that have what is playing dumped: taking away the head, by deselecting it or by selecting it again; any
      select in single mode; a step in its mode; a fetch in once mode that drops a slot; and clearing. */
  predicate Dumps(s: State, op: Op) {
    match op
    case OpSelect(pos, active) =>
      (s.selections != [] && pos == s.selections[0]) || (active && s.selMode == SINGLE)
    case OpSelection(_) => false
    case OpStep(_) => false
    case OpFetch => s.stepMode == ONCE && s.current != -1 && s.selections != []
    case OpManual => s.stepMode == MANUAL
    case OpBeat => s.stepMode == BEAT
    case OpClear => true
  }

  lemma DumpsExactly(s: State, op: Op, rnd: Shuffler)
    requires Shuffles(rnd) && Inv(s)
    ensures Adds(s, Apply(s, op, rnd), Dumps(s, op))
  {
    hide Select, Deselect, NextIdle, NextRunning, Trim, Adds;
    match op
    case OpSelect(pos, active) => if active { SelectAdds(s, pos, rnd); } else { DeselectAdds(s, pos, rnd); }
    case OpSelection(mode) =>
      TrimAdds(s);
      AddsNone(if mode == SINGLE then Trim(s) else s, SetSelection(s, mode));
      AddsNone(s, s);
      AddsThen(s, if mode == SINGLE then Trim(s) else s, SetSelection(s, mode), false, false);
    case OpStep(mode) => AddsNone(s, s.(stepMode := mode));
    case OpFetch =>
      AddsNone(s, s);
      IdleAdds(s, rnd);
      RunningAdds(s, rnd);
      var t := if s.current != -1 then NextRunning(s, rnd) else NextIdle(s, rnd);
      AddsNone(t, t.(current := Head(t)));
      AddsThen(s, t, t.(current := Head(t)), s.current != -1 && s.selections != [] && s.stepMode == ONCE, false);
    case OpManual => TriggerAdds(s, MANUAL, rnd);
    case OpBeat => TriggerAdds(s, BEAT, rnd);
    case OpClear =>
      TrimAdds(s);
      AddsOne(Trim(s), Clear(s), Dump);
      AddsThen(s, Trim(s), Clear(s), false, true);
  }

  lemma TriggerAdds(s: State, mode: StepMode, rnd: Shuffler)
    requires Shuffles(rnd) && mode != ONCE
    ensures Adds(s, Trigger(s, mode, rnd), s.stepMode == mode)
  {
    hide NextRunning, Adds;
    AddsNone(s, s);
    if s.stepMode == mode {
      var t := NextRunning(s, rnd);
      RunningAdds(s, rnd);
      AddsOne(t, Trigger(s, mode, rnd), Dump);
      AddsThen(s, t, Trigger(s, mode, rnd), false, true);
    }
  }

  lemma SelectAdds(s: State, pos: Slot, rnd: Shuffler)
    requires Shuffles(rnd) && Inv(s)
    ensures Adds(s, Select(s, pos, rnd), (s.selections != [] && pos == s.selections[0]) || s.selMode == SINGLE)
  {
    hide Deselect, NextIdle, Adds;
    var t := if pos in s.selections then Deselect(s, pos, rnd) else s;
    DeselectAdds(s, pos, rnd);
    DeselectKeeps(s, pos, rnd);
    AddsNone(s, s);
    var d := s.selections != [] && pos == s.selections[0];
    if t.selMode == SINGLE {
      var cleared := t.(selections := [], current := -1, log := AllOff(t.log, t.selections));
      AllOffAdds(t.log, t.selections);
      OffAdds(t, cleared);
      AddsThen(s, t, cleared, d, false);
      var dumped := Emit(cleared, Dump).(selections := [pos]);
      AddsOne(cleared, dumped, Dump);
      AddsThen(s, cleared, dumped, d, true);
      IdleAdds(dumped, rnd);
      AddsThen(s, dumped, NextIdle(dumped, rnd), true, false);
      AddsOne(NextIdle(dumped, rnd), Select(s, pos, rnd), Changed(pos, true));
      AddsThen(s, NextIdle(dumped, rnd), Select(s, pos, rnd), true, false);
    } else {
      AddsOne(t, Select(s, pos, rnd), Changed(pos, true));
      AddsThen(s, t, Select(s, pos, rnd), d, false);
    }
  }

  lemma OffAdds(t: State, cleared: State)
    requires t.log <= cleared.log && Dump !in cleared.log[|t.log|..]
    ensures Adds(t, cleared, false)
  {
  }
}
