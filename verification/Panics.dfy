/** When the config loop panics: `update_service` unwraps the parse of a service name. Here watch
    events may carry any objects, in particular ones whose service name has no dot. */
module Panics {
  import opened Text
  import opened Names
  import opened Resources
  import opened ResourceChange
  import opened ServiceStore
  import opened Pipeline

  /** A run with no assumption on the objects. Nothing happens after a panic. */
  ghost predicate Possible(s: State, actions: seq<Action>)
    decreases |actions|
  {
    actions == [] || (Enabled(s, actions[0]) && Possible(Step(s, actions[0]), actions[1..]))
  }

  ghost function After(s: State, actions: seq<Action>): State
    requires Possible(s, actions)
    decreases |actions|
  {
    if actions == [] then s else After(Step(s, actions[0]), actions[1..])
  }

  /** The change the loop is about to take applies an object whose name does not parse. */
  ghost predicate TakesUndotted(s: State, a: Action) {
    a.Consume? && s.queue != [] && s.queue[0].Applied? && !Dotted(s.queue[0].obj.spec.serviceName)
  }

  ghost predicate EverTakesUndotted(s: State, actions: seq<Action>)
    requires Possible(s, actions)
    decreases |actions|
  {
    actions != [] && (TakesUndotted(s, actions[0]) || EverTakesUndotted(Step(s, actions[0]), actions[1..]))
  }

  ghost predicate Sound(s: State) { !s.crashed && Indexed(s.store) && AllDotted(s.store.rawServices) }

  lemma AppliedPanicsIff(s: State, o: Object)
    requires Sound(s)
    ensures var s' := ConsumeChange(s, Applied(o));
            (s'.crashed <==> !Dotted(o.spec.serviceName)) && (!s'.crashed ==> Sound(s'))
  {
    InsertKeepsIndex(s.store, o);
    var mid, name := Insert(s.store, o).value, o.spec.serviceName;
    UpdateServicePanicsIff(mid, name);
    assert o.ref in RefsOf(mid.rawServices, name);
    if Dotted(name) { UpdateServiceEffect(mid, name); }
  }

  lemma DeletedIsSafe(s: State, r: ObjectRef)
    requires Sound(s)
    ensures Sound(ConsumeChange(s, Deleted(r)))
  {
    RemoveKeepsIndex(s.store, r);
    if r in s.store.rawServices {
      UpdateServiceEffect(RemoveNoUpdate(s.store, r).value, s.store.rawServices[r].spec.serviceName);
    }
  }

  lemma StepPanicsIff(s: State, a: Action)
    requires Sound(s) && Enabled(s, a)
    ensures (Step(s, a).crashed <==> TakesUndotted(s, a)) && (!Step(s, a).crashed ==> Sound(Step(s, a)))
  {
    if a.Consume? {
      match s.queue[0] {
        case Applied(o) => AppliedPanicsIff(s, o);
        case Deleted(r) => DeletedIsSafe(s, r);
        case Ready =>
        case Failed =>
      }
    }
  }

  lemma {:induction false} PanicsIffFrom(s: State, actions: seq<Action>)
    requires Sound(s) && Possible(s, actions)
    ensures After(s, actions).crashed <==> EverTakesUndotted(s, actions)
    ensures !After(s, actions).crashed ==> Sound(After(s, actions))
    decreases |actions|
  {
    if actions != [] {
      var s' := Step(s, actions[0]);
      StepPanicsIff(s, actions[0]);
      if s'.crashed { assert actions[1..] == []; } else { PanicsIffFrom(s', actions[1..]); }
    }
  }

  /** Over every run, whatever the objects: the loop has panicked exactly if it took an apply of an
      object whose service name has no dot, and until then the index is exact. The other unwraps of
      the loop, of the index entry and of the elected object, never fail. */
  lemma PanicsIff(actions: seq<Action>)
    requires Possible(INITIAL, actions)
    ensures After(INITIAL, actions).crashed <==> EverTakesUndotted(INITIAL, actions)
    ensures !After(INITIAL, actions).crashed ==> Indexed(After(INITIAL, actions).store)
  {
    PanicsIffFrom(INITIAL, actions);
  }

  lemma PossibleCons(s: State, a: Action, rest: seq<Action>)
    requires Enabled(s, a) && Possible(Step(s, a), rest)
    ensures Possible(s, [a] + rest) && After(s, [a] + rest) == After(Step(s, a), rest)
  {
    assert ([a] + rest)[0] == a && ([a] + rest)[1..] == rest;
  }

  /** One such object in the first listing is enough. */
  lemma UndottedListingPanics(o: Object)
    requires !Dotted(o.spec.serviceName)
    ensures var actions := [Deliver(Init, []), Deliver(InitApply(o), []), Consume];
            Possible(INITIAL, actions) && After(INITIAL, actions).crashed
  {
    var s1 := Step(INITIAL, Deliver(Init, []));
    var s2 := Step(s1, Deliver(InitApply(o), []));
    assert s2.queue == [Applied(o)] && Sound(s2);
    StepPanicsIff(s2, Consume);
    PossibleCons(s2, Consume, []);
    PossibleCons(s1, Deliver(InitApply(o), []), [Consume]);
    PossibleCons(INITIAL, Deliver(Init, []), [Deliver(InitApply(o), []), Consume]);
  }
}
