/**
 The progress notifier of src/libostree/ostree-async-progress.c: setters on any thread, an
 idle source dispatched by the main context, and finish, interleaved in every way.
 */
module AsyncProgress {
  import opened Options

  type Key = string
  type Value = string
  type Values = map<Key, Value>
  type Source = nat

  /** The fields under the lock. `sources` counts the idle sources made so far. */
  datatype Shared = Shared(values: Values, idle: Option<Source>, dead: bool, sources: nat)

  // --- the critical sections, as functions of the fields ----------------------------------

  function Assign(values: Values, pairs: seq<(Key, Value)>): Values {
    if pairs == [] then values
    else Assign(values, pairs[..|pairs| - 1])[pairs[|pairs| - 1].0 := pairs[|pairs| - 1].1]
  }

  /** Whether some assignment on the way gives a key a value it does not have at that point. */
  function Changes(values: Values, pairs: seq<(Key, Value)>): bool {
    if pairs == [] then false
    else
      var before, last := Assign(values, pairs[..|pairs| - 1]), pairs[|pairs| - 1];
      Changes(values, pairs[..|pairs| - 1]) || !(last.0 in before && before[last.0] == last.1)
  }

  lemma OneAssignment(values: Values, key: Key, value: Value)
    ensures Assign(values, [(key, value)]) == values[key := value]
    ensures Changes(values, [(key, value)]) == !(key in values && values[key] == value)
  {
    var pairs := [(key, value)];
    assert pairs[..0] == [];
    assert Assign(values, pairs) == Assign(values, pairs[..0])[key := value];
  }

  /** A key that is set holds the value of its last pair. */
  lemma {:induction false} AssignSets(values: Values, pairs: seq<(Key, Value)>, i: nat)
    requires i < |pairs| && forall j :: i < j < |pairs| ==> pairs[j].0 != pairs[i].0
    ensures pairs[i].0 in Assign(values, pairs) && Assign(values, pairs)[pairs[i].0] == pairs[i].1
  {
    if i < |pairs| - 1 { AssignSets(values, pairs[..|pairs| - 1], i); }
  }

  /** A key that is not set stays as it was. */
  lemma {:induction false} AssignKeeps(values: Values, pairs: seq<(Key, Value)>, k: Key)
    requires forall j :: 0 <= j < |pairs| ==> pairs[j].0 != k
    ensures k in Assign(values, pairs) <==> k in values
    ensures k in values ==> Assign(values, pairs)[k] == values[k]
  {
    if pairs != [] { AssignKeeps(values, pairs[..|pairs| - 1], k); }
  }

  /** Setting what is there already is no change. */
  lemma {:induction false} NoChange(values: Values, pairs: seq<(Key, Value)>)
    requires forall j :: 0 <= j < |pairs| ==> pairs[j].0 in values && values[pairs[j].0] == pairs[j].1
    ensures !Changes(values, pairs)
  {
    if pairs != [] {
      NoChange(values, pairs[..|pairs| - 1]);
      UnchangedAssign(values, pairs[..|pairs| - 1]);
    }
  }

  function SetSection(s: Shared, pairs: seq<(Key, Value)>): Shared {
    if s.dead then s
    else
      var s' := s.(values := Assign(s.values, pairs));
      if Changes(s.values, pairs) && s.idle.None? then s'.(idle := Some(s.sources), sources := s.sources + 1) else s'
  }

  /** A set that changes nothing, or comes after finish, leaves everything as it is. */
  lemma QuietSet(s: Shared, pairs: seq<(Key, Value)>)
    ensures s.dead || !Changes(s.values, pairs) ==> SetSection(s, pairs) == s
  {
    if !Changes(s.values, pairs) { UnchangedAssign(s.values, pairs); }
  }

  /** The locked part of the idle callback. */
  function ClearSection(s: Shared): Shared {
    s.(idle := None)
  }

  /** The locked part of finish. */
  function FinishSection(s: Shared): Shared {
    if s.dead then s else s.(dead := true, idle := None)
  }

  /** The source that finish destroys; if there is one, finish emits afterwards. */
  function Destroyed(s: Shared): Option<Source> {
    if s.dead then None else s.idle
  }

  /** The fields, and the methods that run with the lock held. */
  class Progress {
    var values: Values
    var idle: Option<Source>
    var dead: bool
    var sources: nat

    ghost function Fields(): Shared
      reads this
    {
      Shared(values, idle, dead, sources)
    }

    constructor ()
      ensures Fields() == Shared(map[], None, false, 0)
    {
      values, idle, dead, sources := map[], None, false, 0;
    }

    /** ensure_callback_locked: at most one source is waiting. */
    method EnsureCallback() returns (attach: Option<Source>)
      modifies this`idle, this`sources
      ensures attach == if old(idle).Some? then None else Some(old(sources))
      ensures idle == if old(idle).Some? then old(idle) else attach
      ensures sources == if old(idle).Some? then old(sources) else old(sources) + 1
    {
      if idle.Some? {
        return None;
      }
      idle, sources := Some(sources), sources + 1;
      return idle;
    }

    method Set(pairs: seq<(Key, Value)>) returns (attach: Option<Source>)
      modifies this
      ensures Fields() == SetSection(old(Fields()), pairs)
      ensures attach == if old(idle).None? && idle.Some? then idle else None
    {
      if dead {
        return None;
      }
      var changed := false;
      for i := 0 to |pairs|
        invariant Fields() == old(Fields()).(values := Assign(old(values), pairs[..i]))
        invariant changed == Changes(old(values), pairs[..i])
      {
        assert pairs[..i + 1][..i] == pairs[..i];
        var (key, value) := pairs[i];
        if key in values && values[key] == value {
          assert values[key := value] == values;
        } else {
          values := values[key := value];
          changed := true;
        }
      }
      assert pairs[..|pairs|] == pairs;
      attach := None;
      if changed {
        attach := EnsureCallback();
      }
    }

    method SetVariant(key: Key, value: Value) returns (attach: Option<Source>)
      modifies this
      ensures Fields() == SetSection(old(Fields()), [(key, value)])
      ensures attach == if old(idle).None? && idle.Some? then idle else None
    {
      OneAssignment(values, key, value);
      if dead {
        return None;
      }
      if key in values && values[key] == value {
        assert values[key := value] == values;
        return None;
      }
      values := values[key := value];
      attach := EnsureCallback();
    }

    method ClearIdle()
      modifies this`idle
      ensures Fields() == ClearSection(old(Fields()))
    {
      idle := None;
    }

    method Finish() returns (destroy: Option<Source>)
      modifies this`idle, this`dead
      ensures dead && Fields() == FinishSection(old(Fields())) && destroy == Destroyed(old(Fields()))
    {
      destroy := None;
      if !dead {
        dead := true;
        destroy := idle;
        idle := None;
      }
    }
  }

  // --- all interleavings ------------------------------------------------------------------

  /** Where the main context is: waiting, in the callback before the lock, or about to emit. */
  datatype Dispatcher = Waiting | Called(source: Source) | Emitting

  /**
   The object, the sources attached to the main context and not yet dispatched, the main
   context, the number of finish calls about to emit, the values at the last emission, and
   whether a value has changed since then.
   */
  datatype System = System(
    shared: Shared, attached: set<Source>, main: Dispatcher, finishing: nat, shown: Values, dirty: bool)

  datatype Step =
    | SetStep(pairs: seq<(Key, Value)>)
    | DispatchStep(source: Source)
    | CallbackStep
    | EmitStep
    | FinishStep
    | FinishEmitStep

  const INITIAL := System(Shared(map[], None, false, 0), {}, Waiting, 0, map[], false)

  predicate Enabled(s: System, step: Step) {
    match step
    case SetStep(_) => true
    case DispatchStep(source) => s.main == Waiting && source in s.attached
    case CallbackStep => s.main.Called?
    case EmitStep => s.main == Emitting
    case FinishStep => true
    case FinishEmitStep => s.finishing > 0
  }

  function Next(s: System, step: Step): System
    requires Enabled(s, step)
  {
    match step
    case SetStep(pairs) =>
      var f := SetSection(s.shared, pairs);
      s.(shared := f,
         attached := if f.sources > s.shared.sources then s.attached + {s.shared.sources} else s.attached,
         dirty := s.dirty || ChangingSet(s, step))
    case DispatchStep(source) => s.(main := Called(source), attached := s.attached - {source})
    case CallbackStep => s.(shared := ClearSection(s.shared), main := Emitting)
    case EmitStep => s.(main := Waiting, shown := s.shared.values, dirty := false)
    case FinishStep =>
      var s', destroyed := s.(shared := FinishSection(s.shared)), Destroyed(s.shared);
      if destroyed.None? then s'
      else s'.(attached := s.attached - {destroyed.value}, finishing := s.finishing + 1)
    case FinishEmitStep => s.(finishing := s.finishing - 1, shown := s.shared.values, dirty := false)
  }

  /** A set on a live object that gives some key another value, even if it ends where it began. */
  predicate ChangingSet(s: System, step: Step) {
    step.SetStep? && !s.shared.dead && Changes(s.shared.values, step.pairs)
  }

  predicate Emits(step: Step) {
    step.EmitStep? || step.FinishEmitStep?
  }

  predicate Runs(s: System, steps: seq<Step>, s': System)
    decreases |steps|
  {
    if steps == [] then s == s'
    else Enabled(s, steps[0]) && Runs(Next(s, steps[0]), steps[1..], s')
  }

  /** An emission is on its way. */
  predicate Pending(s: System) {
    s.attached != {} || s.main != Waiting || s.finishing > 0
  }

  ghost predicate Inv(s: System) {
    && (forall x :: x in s.attached ==> s.shared.idle == Some(x))
    && (s.shared.idle.Some? ==> s.shared.idle.value in s.attached || s.main == Called(s.shared.idle.value))
    && (s.main.Called? && !s.shared.dead ==> s.shared.idle == Some(s.main.source))
    && (s.main.Called? ==> s.main.source !in s.attached && s.main.source < s.shared.sources)
    && (s.shared.dead ==> s.shared.idle == None)
    && (s.shared.idle.Some? ==> s.shared.idle.value < s.shared.sources)
    && (s.dirty ==> Pending(s))
    && (s.shared.values != s.shown ==> s.dirty)
  }

  lemma {:induction false} UnchangedAssign(values: Values, pairs: seq<(Key, Value)>)
    requires !Changes(values, pairs)
    ensures Assign(values, pairs) == values
  {
    if pairs != [] {
      UnchangedAssign(values, pairs[..|pairs| - 1]);
      assert values[pairs[|pairs| - 1].0 := pairs[|pairs| - 1].1] == values;
    }
  }

  lemma NextKeeps(s: System, step: Step)
    requires Inv(s) && Enabled(s, step)
    ensures Inv(Next(s, step))
  {
    if step.SetStep? && !s.shared.dead {
      if !Changes(s.shared.values, step.pairs) {
        UnchangedAssign(s.shared.values, step.pairs);
      } else {
        var s' := Next(s, step);
        assert s'.shared.idle.Some?;
        assert s'.shared.idle.value in s'.attached || s'.main == Called(s'.shared.idle.value);
      }
    }
  }

  lemma {:induction false} RunKeeps(s: System, steps: seq<Step>, s': System)
    requires Inv(s) && Runs(s, steps, s')
    ensures Inv(s')
    decreases |steps|
  {
    if steps != [] {
      NextKeeps(s, steps[0]);
      RunKeeps(Next(s, steps[0]), steps[1..], s');
    }
  }

  /**
   No notification is lost: after a change without an emission, even one that was undone since,
   an emission is on its way. In particular this holds for values that were not shown yet.
   */
  lemma NoLostNotification(steps: seq<Step>, s: System)
    requires Runs(INITIAL, steps, s)
    ensures s.dirty ==> Pending(s)
    ensures s.shared.values != s.shown ==> s.dirty
    ensures |s.attached| <= 1
  {
    RunKeeps(INITIAL, steps, s);
    if s.attached != {} {
      var x :| x in s.attached;
      assert s.attached == {x};
    }
  }

  lemma {:induction false} DirtyStays(s: System, steps: seq<Step>, s': System)
    requires s.dirty && Runs(s, steps, s') && forall x :: x in steps ==> !Emits(x)
    ensures s'.dirty
    decreases |steps|
  {
    if steps != [] {
      assert steps[0] in steps;
      DirtyStays(Next(s, steps[0]), steps[1..], s');
    }
  }

  /** The same said of the run: a change that no emission followed has one on its way. */
  lemma ChangeIsPending(before: seq<Step>, s: System, step: Step, after: seq<Step>, s': System)
    requires Runs(INITIAL, before, s) && ChangingSet(s, step)
    requires Runs(Next(s, step), after, s') && forall x :: x in after ==> !Emits(x)
    ensures Pending(s')
  {
    RunKeeps(INITIAL, before, s);
    NextKeeps(s, step);
    DirtyStays(Next(s, step), after, s');
    RunKeeps(Next(s, step), after, s');
  }

  /** How many steps of the main context, or of finish, are needed to show the current values. */
  function Work(s: System): nat {
    var queued := if s.attached != {} then 3 else 0;
    match s.main
    case Called(_) => queued + 2
    case Emitting => queued + 1
    case Waiting => if s.attached == {} && s.dirty then 1 else queued
  }

  /** Letting what is on its way happen, with no further set or finish, shows the current values. */
  lemma {:induction false} Settles(s: System) returns (more: seq<Step>, s': System)
    requires Inv(s)
    ensures Runs(s, more, s') && |more| <= Work(s) <= 4
    ensures forall x :: x in more ==> !x.SetStep? && !x.FinishStep?
    ensures s'.shown == s'.shared.values == s.shared.values && s'.main == Waiting && s'.attached == {}
    ensures !s'.dirty
    decreases Work(s)
  {
    var step;
    if s.main.Called? {
      assert forall x :: x !in s.attached;
      step := CallbackStep;
    } else if s.main == Emitting {
      step := EmitStep;
    } else if s.attached != {} {
      var x :| x in s.attached;
      assert s.attached == {x};
      step := DispatchStep(x);
    } else if s.dirty {
      step := FinishEmitStep;
    } else {
      return [], s;
    }
    NextKeeps(s, step);
    more, s' := Settles(Next(s, step));
    assert ([step] + more)[1..] == more;
    more := [step] + more;
  }

  /** After finish the values are frozen, nothing is attached, and nothing will be. */
  lemma {:induction false} FinishIsFinal(before: seq<Step>, s: System, steps: seq<Step>, s': System)
    requires Runs(INITIAL, before, s) && s.shared.dead && Runs(s, steps, s')
    ensures s'.shared.values == s.shared.values && s'.shared.dead && s'.attached == {} && s'.shared.sources == s.shared.sources
  {
    RunKeeps(INITIAL, before, s);
    DeadStays(s, steps, s');
  }

  lemma {:induction false} DeadStays(s: System, steps: seq<Step>, s': System)
    requires Inv(s) && s.shared.dead && Runs(s, steps, s')
    ensures s'.shared.values == s.shared.values && s'.shared.dead && s'.attached == {} && s'.shared.sources == s.shared.sources
    decreases |steps|
  {
    assert forall x :: x !in s.attached;
    if steps != [] {
      NextKeeps(s, steps[0]);
      DeadStays(Next(s, steps[0]), steps[1..], s');
    }
  }
}
