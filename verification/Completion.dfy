/** The order in which descriptor tasks complete or die, relative to each other and to everything
    else, does not matter. */
module Completion {
  import opened Text
  import opened Names
  import opened Resources
  import opened ResourceChange
  import opened ServiceStore
  import opened Pipeline
  import opened Convergence

  /** At most one map fits the completed installs. */
  lemma InstallsDetermineServices(a: map<string, ServiceData>, b: map<string, ServiceData>, l: Ledger)
    requires NewestInstalled(a, l) && NewestInstalled(b, l)
    ensures a == b
  {
    forall n | n in a ensures n in b && b[n] == a[n] {
      assert a[n].generation in l.installed;
      assert b[n].generation in l.installed;
    }
    forall n | n in b ensures n in a { assert b[n].generation in l.installed; }
  }

  // ---- One batch of task ends ----

  ghost predicate OnlyFinishes(actions: seq<Action>) {
    actions != [] ==> actions[0].Finish? && OnlyFinishes(actions[1..])
  }

  /** Everything the system knows about one generation. */
  datatype Slot = Slot(task: Option<Task>, installed: Option<ServiceData>, loaded: Option<string>, failed: bool)

  ghost function SlotOf(s: State, g: nat): Slot {
    Slot(if g in s.store.tasks then Some(s.store.tasks[g]) else None,
         if g in s.ledger.installed then Some(s.ledger.installed[g]) else None,
         LoadedFor(s.ledger, g),
         g in s.ledger.failed)
  }

  ghost predicate Mentions(actions: seq<Action>, g: nat) {
    exists a :: a in actions && a.Finish? && a.generation == g
  }

  /** What a batch of finishing tasks leaves untouched. */
  ghost predicate SameApartFromTasks(s: State, s': State) {
    && s'.ledger.issued == s.ledger.issued && s'.stale == s.stale && s'.crashed == s.crashed
    && s'.watch == s.watch && s'.differ == s.differ && s'.queue == s.queue
    && s'.store == s.store.(services := s'.store.services, tasks := s'.store.tasks)
  }

  lemma {:induction false} BatchFrame(world: World, s: State, actions: seq<Action>)
    requires LegalRun(world, s, actions) && OnlyFinishes(actions)
    ensures SameApartFromTasks(s, Run(world, s, actions))
    decreases |actions|
  {
    if actions != [] {
      BatchFrame(world, Step(s, actions[0]), actions[1..]);
    }
  }

  lemma MentionsCons(actions: seq<Action>, g: nat)
    requires actions != []
    ensures Mentions(actions, g) <==> (actions[0].Finish? && actions[0].generation == g) || Mentions(actions[1..], g)
  {
    assert forall a :: a in actions <==> a == actions[0] || a in actions[1..];
  }

  /** A batch leaves a generation it does not mention alone, and only mentions pending ones. */
  lemma {:induction false} SlotUntouched(world: World, s: State, actions: seq<Action>, g: nat)
    requires LegalRun(world, s, actions) && OnlyFinishes(actions)
    ensures !Mentions(actions, g) ==> SlotOf(Run(world, s, actions), g) == SlotOf(s, g)
    ensures Mentions(actions, g) ==> g in s.store.tasks
    decreases |actions|
  {
    if actions != [] {
      MentionsCons(actions, g);
      SlotUntouched(world, Step(s, actions[0]), actions[1..], g);
    }
  }

  /** A generation that is mentioned ends up as its one action leaves it. */
  lemma {:induction false} SlotFinished(world: World, s: State, actions: seq<Action>, a: Action)
    requires LegalRun(world, s, actions) && OnlyFinishes(actions) && a in actions
    ensures a.Finish? && a.generation in s.store.tasks
    ensures SlotOf(Run(world, s, actions), a.generation) == SlotOf(FinishTask(s, a.generation, a.descriptors), a.generation)
    decreases |actions|
  {
    var mid := Step(s, actions[0]);
    if a == actions[0] {
      SlotUntouched(world, mid, actions[1..], a.generation);
    } else {
      assert a in actions[1..];
      SlotFinished(world, mid, actions[1..], a);
    }
  }

  lemma SlotsDetermineLedger(s: State, s': State)
    requires s.ledger.issued == s'.ledger.issued && forall g: nat :: SlotOf(s, g) == SlotOf(s', g)
    ensures s.ledger == s'.ledger && s.store.tasks == s'.store.tasks
  {
    forall g: nat ensures g in s.ledger.failed <==> g in s'.ledger.failed {
      assert SlotOf(s, g) == SlotOf(s', g);
    }
    forall g: nat ensures
      && (g in s.ledger.installed <==> g in s'.ledger.installed)
      && (g in s.ledger.installed ==> s.ledger.installed[g] == s'.ledger.installed[g])
    {
      assert SlotOf(s, g) == SlotOf(s', g);
    }
    assert s.ledger.installed == s'.ledger.installed;
    forall g: nat ensures
      && (g in s.ledger.loaded <==> g in s'.ledger.loaded)
      && (g in s.ledger.loaded ==> s.ledger.loaded[g] == s'.ledger.loaded[g])
    {
      assert SlotOf(s, g) == SlotOf(s', g);
    }
    assert s.ledger.loaded == s'.ledger.loaded;
    forall g: nat ensures
      && (g in s.store.tasks <==> g in s'.store.tasks)
      && (g in s.store.tasks ==> s.store.tasks[g] == s'.store.tasks[g])
    {
      assert SlotOf(s, g) == SlotOf(s', g);
    }
  }

  lemma SameSlot(world: World, s: State, one: seq<Action>, other: seq<Action>, g: nat)
    requires LegalRun(world, s, one) && OnlyFinishes(one)
    requires LegalRun(world, s, other) && OnlyFinishes(other)
    requires multiset(one) == multiset(other)
    ensures SlotOf(Run(world, s, one), g) == SlotOf(Run(world, s, other), g)
  {
    assert forall x :: x in one <==> x in multiset(one);
    assert forall x :: x in other <==> x in multiset(other);
    if Mentions(one, g) {
      var x :| x in one && x.Finish? && x.generation == g;
      SlotFinished(world, s, one, x);
      SlotFinished(world, s, other, x);
    } else {
      SlotUntouched(world, s, one, g);
      SlotUntouched(world, s, other, g);
    }
  }

  /** Two orders of one batch of completions and deaths lead to the same state, map included. */
  lemma BatchOrderIrrelevant(world: World, s: State, one: seq<Action>, other: seq<Action>)
    requires Inv(world, s)
    requires LegalRun(world, s, one) && OnlyFinishes(one)
    requires LegalRun(world, s, other) && OnlyFinishes(other)
    requires multiset(one) == multiset(other)
    ensures Run(world, s, one) == Run(world, s, other)
  {
    var a, b := Run(world, s, one), Run(world, s, other);
    RunKeepsInv(world, s, one);
    RunKeepsInv(world, s, other);
    BatchFrame(world, s, one);
    BatchFrame(world, s, other);
    forall g: nat ensures SlotOf(a, g) == SlotOf(b, g) {
      SameSlot(world, s, one, other, g);
    }
    SlotsDetermineLedger(a, b);
    InstallsDetermineServices(a.store.services, b.store.services, a.ledger);
  }

  // ---- A task end commutes with an `update_service` ----

  /** What the end of one task leaves alone. */
  lemma FinishTouches(s: State, g: nat, d: Option<string>)
    requires g in s.store.tasks
    ensures var s' := FinishTask(s, g, d);
            SameApartFromTasks(s, s') && s'.store.tasks == s.store.tasks - {g}
  {
  }

  /** `update_service(name)` as a whole: the store and its ledger entry. */
  ghost function Call(s: State, name: string): State
    requires UpdateService(s.store, name).Some?
  {
    var st := UpdateService(s.store, name).value;
    s.(store := st, ledger := Record(s.ledger, st, name))
  }

  /** What a call enters in the ledger depends on the elected object and the counter only. */
  lemma CallEffect(s: State, name: string)
    requires Indexed(s.store) && AllDotted(s.store.rawServices) && name in s.store.refByGrpcService && LedgerInv(s.store, s.ledger)
    ensures UpdateService(s.store, name).Some?
    ensures var i, s' := Issue(name, Elected(s.store.rawServices, name)), Call(s, name);
            && LedgerInv(s'.store, s'.ledger)
            && (Spawns(i) || Offerable(i, None)) && s'.ledger == Entered(s.ledger, i)
            && s'.store == s.store.(specGeneration := |s.ledger.issued| + 1, services := s'.store.services, tasks := s'.store.tasks)
            && TasksAfter(s.store.tasks, |s.ledger.issued|, i, s'.store.tasks)
  {
    UpdateServiceOutcome(s.store, name);
    UpdateEnters(s.store, s.ledger, name, UpdateService(s.store, name).value);
  }

  lemma LedgersCommute(l: Ledger, i: Issue, g: nat, t: Task, d: string)
    requires (Spawns(i) || Offerable(i, None)) && g < |l.issued|
    ensures Loaded(Entered(l, i), g, t, d) == Entered(Loaded(l, g, t, d), i)
  {
    var n := |l.issued|;
    if !Spawns(i) {
      assert l.installed[n := Offer(n, i, None)][g := TaskData(t, d)] == l.installed[g := TaskData(t, d)][n := Offer(n, i, None)];
    }
  }

  lemma TasksCommute(tasks: map<nat, Task>, n: nat, i: Issue, g: nat, a: map<nat, Task>, b: map<nat, Task>)
    requires g in tasks && g < n && TasksAfter(tasks, n, i, a) && TasksAfter(tasks - {g}, n, i, b)
    ensures g in a && a[g] == tasks[g] && b == a - {g}
  {
  }

  /** A task may end before or after a later call: the ledger and the tasks come out the same, and
      so does the map, because the ledger determines it. */
  lemma CallCommutes(s: State, name: string, g: nat, d: Option<string>)
    requires Indexed(s.store) && AllDotted(s.store.rawServices) && name in s.store.refByGrpcService && LedgerInv(s.store, s.ledger)
    requires g in s.store.tasks
    ensures UpdateService(s.store, name).Some? && g in Call(s, name).store.tasks
    ensures UpdateService(FinishTask(s, g, d).store, name).Some?
    ensures Call(FinishTask(s, g, d), name) == FinishTask(Call(s, name), g, d)
  {
    var i, f := Issue(name, Elected(s.store.rawServices, name)), FinishTask(s, g, d);
    FinishTouches(s, g, d);
    FinishKeepsLedger(s, g, d);
    CallEffect(s, name);
    CallEffect(f, name);
    var c, x := Call(s, name), Call(f, name);
    assert g < |s.ledger.issued|;
    TasksCommute(s.store.tasks, |s.ledger.issued|, i, g, c.store.tasks, x.store.tasks);
    if d.Some? { LedgersCommute(s.ledger, i, g, s.store.tasks[g], d.value); }
    SameCalls(c, g, d, x);
  }

  lemma SameCalls(c: State, g: nat, d: Option<string>, x: State)
    requires LedgerInv(c.store, c.ledger) && LedgerInv(x.store, x.ledger) && g in c.store.tasks
    requires x.ledger == FinishTask(c, g, d).ledger && x.store.tasks == c.store.tasks - {g}
    requires x == c.(store := c.store.(services := x.store.services, tasks := x.store.tasks), ledger := x.ledger)
    ensures x == FinishTask(c, g, d)
  {
    var y := FinishTask(c, g, d);
    FinishKeepsLedger(c, g, d);
    FinishTouches(c, g, d);
    InstallsDetermineServices(x.store.services, y.store.services, x.ledger);
  }

  // ---- A task end commutes with every other step ----

  lemma AppliedIsCall(s: State, o: Object)
    requires Insert(s.store, o).Some? && UpdateService(Insert(s.store, o).value, o.spec.serviceName).Some?
    ensures ConsumeChange(s, Applied(o)) ==
            Call(s.(store := Insert(s.store, o).value), o.spec.serviceName)
              .(stale := s.stale + Abandoned(s.store.rawServices, o) - {o.spec.serviceName})
  {
  }

  lemma InsertPastFinish(s: State, o: Object, g: nat, d: Option<string>)
    requires g in s.store.tasks && Insert(s.store, o).Some?
    ensures Insert(s.store, o).value.tasks == s.store.tasks
    ensures Insert(FinishTask(s, g, d).store, o) == Some(FinishTask(s.(store := Insert(s.store, o).value), g, d).store)
  {
  }

  lemma AppliedCommutes(s: State, o: Object, g: nat, d: Option<string>)
    requires Indexed(s.store) && AllDotted(s.store.rawServices) && LedgerInv(s.store, s.ledger)
    requires Dotted(o.spec.serviceName) && g in s.store.tasks
    ensures g in ConsumeChange(s, Applied(o)).store.tasks
    ensures ConsumeChange(FinishTask(s, g, d), Applied(o)) == FinishTask(ConsumeChange(s, Applied(o)), g, d)
  {
    InsertedIsReady(s.store, s.ledger, o);
    InsertPastFinish(s, o, g, d);
    var mid := s.(store := Insert(s.store, o).value);
    CallCommutes(mid, o.spec.serviceName, g, d);
    AppliedIsCall(s, o);
    AppliedIsCall(FinishTask(s, g, d), o);
  }

  lemma DeletedIsCall(s: State, r: ObjectRef)
    requires r in s.store.rawServices && RemoveNoUpdate(s.store, r).Some?
    requires UpdateService(RemoveNoUpdate(s.store, r).value, s.store.rawServices[r].spec.serviceName).Some?
    ensures var name := s.store.rawServices[r].spec.serviceName;
            ConsumeChange(s, Deleted(r)) == Call(s.(store := RemoveNoUpdate(s.store, r).value), name).(stale := s.stale - {name})
  {
  }

  lemma DeletedCommutes(s: State, r: ObjectRef, g: nat, d: Option<string>)
    requires Indexed(s.store) && AllDotted(s.store.rawServices) && LedgerInv(s.store, s.ledger)
    requires r in s.store.rawServices && g in s.store.tasks
    ensures g in ConsumeChange(s, Deleted(r)).store.tasks
    ensures ConsumeChange(FinishTask(s, g, d), Deleted(r)) == FinishTask(ConsumeChange(s, Deleted(r)), g, d)
  {
    FinishTouches(s, g, d);
    RemoveKeepsIndex(s.store, r);
    var mid, f := s.(store := RemoveNoUpdate(s.store, r).value), FinishTask(s, g, d);
    assert RemoveNoUpdate(f.store, r) == Some(FinishTask(mid, g, d).store);
    CallCommutes(mid, s.store.rawServices[r].spec.serviceName, g, d);
    DeletedIsCall(s, r);
    DeletedIsCall(f, r);
  }

  lemma ConsumeCommutes(world: World, s: State, c: Change, g: nat, d: Option<string>)
    requires StoreInv(world, s) && ChangeTrusted(world, c) && g in s.store.tasks
    ensures g in ConsumeChange(s, c).store.tasks
    ensures ConsumeChange(FinishTask(s, g, d), c) == FinishTask(ConsumeChange(s, c), g, d)
  {
    match c {
      case Applied(o) => AppliedCommutes(s, o, g, d);
      case Deleted(r) => if r in s.store.rawServices { DeletedCommutes(s, r, g, d); } else { FinishTouches(s, g, d); }
      case Ready =>
      case Failed =>
    }
  }

  /** If a task ends just before a watch event or a consumed change, it may as well end just after
      it, even when both write the same entry. */
  lemma StepCommutes(world: World, s: State, f: Action, a: Action)
    requires Inv(world, s) && f.Finish? && Enabled(s, f)
    requires !a.Finish? && Trusted(world, a) && Enabled(Step(s, f), a)
    ensures Enabled(s, a) && Inv(world, Step(s, a)) && Enabled(Step(s, a), f)
    ensures Step(Step(s, f), a) == Step(Step(s, a), f)
  {
    FinishTouches(s, f.generation, f.descriptors);
    StepKeepsInv(world, s, a);
    if a.Consume? {
      assert ChangeTrusted(world, s.queue[0]);
      ConsumeCommutes(world, s, s.queue[0], f.generation, f.descriptors);
    }
  }

  // ---- Over whole runs ----

  ghost function Finishes(actions: seq<Action>): seq<Action> {
    if actions == [] then [] else (if actions[0].Finish? then [actions[0]] else []) + Finishes(actions[1..])
  }

  ghost function Others(actions: seq<Action>): seq<Action> {
    if actions == [] then [] else (if actions[0].Finish? then [] else [actions[0]]) + Others(actions[1..])
  }

  ghost predicate NoFinish(actions: seq<Action>) {
    actions != [] ==> !actions[0].Finish? && NoFinish(actions[1..])
  }

  lemma {:induction false} Separates(actions: seq<Action>)
    ensures OnlyFinishes(Finishes(actions)) && NoFinish(Others(actions))
  {
    if actions != [] {
      var a, rest := actions[0], actions[1..];
      Separates(rest);
      if a.Finish? {
        assert Finishes(actions)[1..] == Finishes(rest) && Others(actions) == Others(rest);
      } else {
        assert Others(actions)[1..] == Others(rest) && Finishes(actions) == Finishes(rest);
      }
    }
  }

  /** A task end can be put off past any number of other steps. */
  lemma {:induction false} FinishPutOff(world: World, s: State, f: Action, rest: seq<Action>)
    requires Inv(world, s) && f.Finish? && Enabled(s, f) && NoFinish(rest) && LegalRun(world, Step(s, f), rest)
    ensures LegalRun(world, s, rest) && Enabled(Run(world, s, rest), f)
    ensures Run(world, Step(s, f), rest) == Step(Run(world, s, rest), f)
    decreases |rest|
  {
    if rest != [] {
      var a, tail := rest[0], rest[1..];
      StepCommutes(world, s, f, a);
      FinishPutOff(world, Step(s, a), f, tail);
    }
  }

  /** A run with all its task ends put off to the end is legal and leads to the same state. */
  lemma {:induction false} FinishesLast(world: World, s: State, actions: seq<Action>)
    requires Inv(world, s) && LegalRun(world, s, actions)
    ensures LegalRun(world, s, Others(actions))
    ensures LegalRun(world, Run(world, s, Others(actions)), Finishes(actions))
    ensures Run(world, s, actions) == Run(world, Run(world, s, Others(actions)), Finishes(actions))
    decreases |actions|
  {
    if actions != [] {
      var a, rest := actions[0], actions[1..];
      var others, finishes := Others(rest), Finishes(rest);
      StepKeepsInv(world, s, a);
      FinishesLast(world, Step(s, a), rest);
      Separates(rest);
      if a.Finish? {
        FinishPutOff(world, s, a, others);
        LegalCons(world, Run(world, s, others), a, finishes);
        assert Others(actions) == others;
      } else {
        LegalCons(world, s, a, others);
        assert Finishes(actions) == finishes;
      }
    }
  }

  /** Two runs with the same watch events and consumed changes in the same order, and the same task
      completions and deaths interleaved with them and with each other in any two ways, end in the
      same state, map included. */
  lemma CompletionOrderIrrelevant(world: World, one: seq<Action>, other: seq<Action>)
    requires LegalRun(world, INITIAL, one) && LegalRun(world, INITIAL, other)
    requires Others(one) == Others(other) && multiset(Finishes(one)) == multiset(Finishes(other))
    ensures Run(world, INITIAL, one) == Run(world, INITIAL, other)
  {
    InitialInv(world);
    FinishesLast(world, INITIAL, one);
    FinishesLast(world, INITIAL, other);
    Separates(one);
    Separates(other);
    Reachable(world, Others(one));
    BatchOrderIrrelevant(world, Run(world, INITIAL, Others(one)), Finishes(one), Finishes(other));
  }
}
