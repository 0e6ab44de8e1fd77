/** What the live-reload pipeline guarantees over whole runs. */
module Convergence {
  import opened Text
  import opened Names
  import opened Resources
  import opened ResourceChange
  import opened ServiceStore
  import opened Pipeline

  // ---- No unwrap fails, and the index is exact ----

  /** Over every run the config loop never panics, the inverse index is exact, and each entry of
      `services` is the completed install for its name with the greatest generation, whatever
      tasks have died. */
  lemma StoreSoundInEveryRun(world: World, actions: seq<Action>)
    requires LegalRun(world, INITIAL, actions)
    ensures var s := Run(world, INITIAL, actions);
            !s.crashed && Indexed(s.store) && NewestInstalled(s.store.services, s.ledger)
  {
    Reachable(world, actions);
  }

  /** When the loop takes `Ready` from the stream, and so reports readiness, it has applied exactly
      the objects of the completed listing. */
  lemma ReadyMeansCaughtUp(world: World, actions: seq<Action>)
    requires LegalRun(world, INITIAL, actions)
    ensures var s := Run(world, INITIAL, actions);
            s.queue != [] && s.queue[0] == Ready ==> s.watch.pending.None? && s.store.rawServices == s.watch.objects
  {
    Reachable(world, actions);
    var s := Run(world, INITIAL, actions);
    if s.queue != [] && s.queue[0] == Ready {
      FoldOne(s.store.rawServices, Ready);
      assert s.queue == [Ready];
      TracksIsEquality(world, s.watch, s.differ, s.store.rawServices);
    }
  }

  ghost function Readies(queue: seq<Change>): nat {
    if queue == [] then 0 else (if queue[0] == Ready then 1 else 0) + Readies(queue[1..])
  }

  ghost function ListingsDelivered(actions: seq<Action>): nat {
    if actions == [] then 0
    else (if actions[0].Deliver? && actions[0].event.InitDone? then 1 else 0) + ListingsDelivered(actions[1..])
  }

  /** How often the loop takes `Ready`, and so reports readiness. */
  ghost function ReadinessReports(world: World, s: State, actions: seq<Action>): nat
    requires LegalRun(world, s, actions)
    decreases |actions|
  {
    if actions == [] then 0
    else
      (if actions[0].Consume? && s.queue[0] == Ready then 1 else 0) + ReadinessReports(world, Step(s, actions[0]), actions[1..])
  }

  lemma {:induction false} ReadiesOf(out: seq<Change>)
    requires Ready in out ==> out[|out| - 1] == Ready
    requires forall i, j :: 0 <= i < j < |out| ==> out[i] != out[j]
    ensures Readies(out) == if Ready in out then 1 else 0
  {
    if out != [] {
      var rest := out[1..];
      assert out == [out[0]] + rest;
      assert forall i :: 0 <= i < |rest| ==> rest[i] == out[i + 1];
      ReadiesOf(rest);
    }
  }

  lemma StepReadies(s: State, a: Action)
    requires Enabled(s, a)
    ensures Readies(Step(s, a).queue) + (if a.Consume? && s.queue[0] == Ready then 1 else 0)
            == Readies(s.queue) + if a.Deliver? && a.event.InitDone? then 1 else 0
  {
    if a.Deliver? {
      EmittedAnnounces(s.differ, a.event, a.order);
      ReadiesOf(Emitted(s.differ, a.event, a.order));
    }
  }

  lemma {:induction false} ReadinessFrom(world: World, s: State, actions: seq<Action>)
    requires LegalRun(world, s, actions)
    ensures ReadinessReports(world, s, actions) + Readies(Run(world, s, actions).queue) == Readies(s.queue) + ListingsDelivered(actions)
    decreases |actions|
  {
    if actions != [] {
      StepReadies(s, actions[0]);
      ReadinessFrom(world, Step(s, actions[0]), actions[1..]);
    }
  }

  /** Every completed listing is reported exactly once: once the queue is drained the loop has taken
      `Ready` as often as the watch has finished a listing. */
  lemma OneReportPerListing(world: World, actions: seq<Action>)
    requires LegalRun(world, INITIAL, actions) && Run(world, INITIAL, actions).queue == []
    ensures ReadinessReports(world, INITIAL, actions) == ListingsDelivered(actions)
  {
    ReadinessFrom(world, INITIAL, actions);
  }

  // ---- Convergence, and exactly when it fails ----

  /** The object a name is being served from. */
  ghost function Served(s: State, n: string): Option<Object> {
    if n in s.store.services && s.store.services[n].generation < |s.ledger.issued|
    then s.ledger.issued[s.store.services[n].generation].obj else None
  }

  /** Nothing is under way that concerns `n`: no listing in progress, every change consumed, and
      the last `update_service(n)` neither pending nor dead. */
  ghost predicate SettledFor(s: State, n: string) {
    && s.queue == [] && s.watch.pending.None?
    && var g := LastIssue(s.ledger.issued, n); g !in s.store.tasks && g !in s.ledger.failed
  }

  /** The entry of `n` is what `update_service(n)` installs for the object `n` is served from, with the
      descriptors that the task of that very call finished with in the run. */
  ghost predicate InstalledData(s: State, actions: seq<Action>, n: string) {
    n in s.store.services ==>
      var g, i := s.store.services[n].generation, Issue(n, Served(s, n));
      Offers(s.store.services[n], g, i, FinishedWith(actions, g))
  }

  lemma SettledServesLastElected(world: World, s: State, n: string)
    requires Inv(world, s) && SettledFor(s, n)
    ensures Served(s, n) == LastElected(s.ledger.issued, n)
    ensures n in s.store.services ==> s.store.services[n].generation == LastIssue(s.ledger.issued, n)
    ensures n in s.store.services ==>
              var g := s.store.services[n].generation;
              Offers(s.store.services[n], g, Issue(n, Served(s, n)), LoadedFor(s.ledger, g))
  {
    var l := s.ledger;
    var g := LastIssue(l.issued, n);
    if n in s.store.services {
      var h := s.store.services[n].generation;
      assert h in l.installed && l.issued[h].name == n;
      assert h <= g;
      assert g in l.installed;
      assert g <= h;
      assert l.issued[g] == Issue(n, Served(s, n));
    } else {
      assert g >= 0 ==> g in l.installed;
    }
  }

  lemma SettledRawIsWatched(world: World, s: State)
    requires Inv(world, s) && s.queue == [] && s.watch.pending.None?
    ensures s.store.rawServices == s.watch.objects
  {
    assert Fold(s.store.rawServices, []) == s.store.rawServices;
    TracksIsEquality(world, s.watch, s.differ, s.store.rawServices);
  }

  lemma ElectedDeclaresName(objects: map<ObjectRef, Object>, n: string)
    requires Elected(objects, n).Some? && Keyed(objects)
    ensures var o := Elected(objects, n).value; o.ref in objects && objects[o.ref] == o && o.spec.serviceName == n
  {
    assert Elect(RefsOf(objects, n)) in RefsOf(objects, n);
  }

  /** End to end: after every run, once things are settled for a name, it is served from the least
      object the watch says declares it if and only if the elected object was not renamed away
      since the last update of that name. */
  lemma ServesElectedIff(world: World, actions: seq<Action>, n: string)
    requires LegalRun(world, INITIAL, actions) && SettledFor(Run(world, INITIAL, actions), n)
    ensures var s := Run(world, INITIAL, actions);
            && (Served(s, n) == Elected(s.watch.objects, n) <==> n !in s.stale)
            && InstalledData(s, actions, n)
            && (Routable(s.store.services, n) <==> Served(s, n).Some?)
  {
    var s := Run(world, INITIAL, actions);
    Reachable(world, actions);
    SettledServesLastElected(world, s, n);
    if n in s.store.services { LoadedByActions(world, INITIAL, actions, s.store.services[n].generation); }
    SettledRawIsWatched(world, s);
    if n in s.stale && Elected(s.watch.objects, n).Some? {
      ElectedDeclaresName(s.watch.objects, n);
    }
  }

  /** Every task finished alive, nothing is in flight. */
  ghost predicate Settled(s: State) {
    s.queue == [] && s.watch.pending.None? && s.store.tasks == map[] && s.ledger.failed == {}
  }

  /** Convergence of the whole map: a name that is not stale has no load balancer if no object
      declares it, and otherwise has the upstream and the spec of the least one that does. */
  lemma Converges(world: World, actions: seq<Action>, n: string)
    requires LegalRun(world, INITIAL, actions) && Settled(Run(world, INITIAL, actions))
    requires n !in Run(world, INITIAL, actions).stale
    ensures var s := Run(world, INITIAL, actions);
            match Elected(s.watch.objects, n)
            case None => !Routable(s.store.services, n)
            case Some(o) =>
              var g, i := LastIssue(s.ledger.issued, n), Issue(n, Some(o));
              g >= 0 && n in s.store.services && Offers(s.store.services[n], g, i, FinishedWith(actions, g))
  {
    var s := Run(world, INITIAL, actions);
    assert SettledFor(s, n);
    ServesElectedIff(world, actions, n);
    Reachable(world, actions);
    SettledServesLastElected(world, s, n);
  }

  /** No object ever changes its service name. */
  ghost predicate NamesFixed(world: World) {
    forall r, v, v' :: world(r, v).serviceName == world(r, v').serviceName
  }

  lemma NothingAbandoned(world: World, raw: map<ObjectRef, Object>, o: Object)
    requires NamesFixed(world) && Keyed(raw) && AllGenuine(world, raw) && Genuine(world, o)
    ensures Abandoned(raw, o) == {}
  {
    if o.ref in raw { assert Genuine(world, raw[o.ref]); }
  }

  lemma StepMakesNoneStale(world: World, s: State, a: Action)
    requires NamesFixed(world) && Inv(world, s) && Enabled(s, a) && s.stale == {}
    ensures Step(s, a).stale == {}
  {
    if a.Consume? && s.queue[0].Applied? {
      assert ChangeTrusted(world, s.queue[0]);
      NothingAbandoned(world, s.store.rawServices, s.queue[0].obj);
    }
  }

  lemma {:induction false} NoRenamesNoStale(world: World, s: State, actions: seq<Action>)
    requires NamesFixed(world) && Inv(world, s) && LegalRun(world, s, actions) && s.stale == {}
    ensures Run(world, s, actions).stale == {}
    decreases |actions|
  {
    if actions != [] {
      StepMakesNoneStale(world, s, actions[0]);
      StepKeepsInv(world, s, actions[0]);
      NoRenamesNoStale(world, Step(s, actions[0]), actions[1..]);
    }
  }

  /** Without renames every name converges. */
  lemma ConvergesWithoutRenames(world: World, actions: seq<Action>)
    requires LegalRun(world, INITIAL, actions) && NamesFixed(world)
    ensures Run(world, INITIAL, actions).stale == {}
  {
    InitialInv(world);
    NoRenamesNoStale(world, INITIAL, actions);
  }

  // ---- The gap: a rename leaves its old name routable ----

  lemma ElectSingleton(r: ObjectRef)
    ensures Elect({r}) == r
  {
    assert Elect({r}) in {r};
  }

  lemma ApplyPassthrough(st: Store, o: Object)
    requires Dotted(o.spec.serviceName) && o.spec.descriptorSetSource.None?
    requires st.rawServices.Keys <= {o.ref}
    requires o.ref in st.rawServices ==> st.rawServices[o.ref].spec.serviceName in st.refByGrpcService
    requires o.spec.serviceName !in st.refByGrpcService && o.spec.serviceName !in st.services
    ensures ApplyChange(st, o).Some?
    ensures var st', name := ApplyChange(st, o).value, o.spec.serviceName;
            && st'.rawServices == map[o.ref := o] && st'.tasks == st.tasks
            && st'.refByGrpcService.Keys == st.refByGrpcService.Keys + {name}
            && st'.services == st.services[name := ServiceData(st.specGeneration, Some(Passthrough(Parse(name).value)), Some(o.spec.upstream))]
  {
    PrintParse(o.spec.serviceName);
    ElectSingleton(o.ref);
    var mid := Insert(st, o).value;
    assert mid.refByGrpcService[o.spec.serviceName] == {o.ref};
    assert mid.rawServices == map[o.ref := o];
  }

  ghost function RenameWorld(a: string, b: string, u: Upstream): World {
    (r: ObjectRef, v: string) => if v == "1" then ObjectSpec(a, u, None) else ObjectSpec(b, u, None)
  }

  ghost function Named(r: ObjectRef, version: string, name: string, u: Upstream): Object {
    Object(r, version, ObjectSpec(name, u, None))
  }

  /** List one object, then apply it renamed. */
  ghost function ListRun(o: Object): seq<Action> {
    [Deliver(Init, []), Deliver(InitApply(o), []), Consume, Deliver(InitDone, []), Consume]
  }

  ghost function RenameRun(r: ObjectRef, a: string, b: string, u: Upstream): seq<Action> {
    ListRun(Named(r, "1", a, u)) + [Deliver(Apply(Named(r, "2", b, u)), []), Consume]
  }

  lemma LegalCons(world: World, s: State, a: Action, rest: seq<Action>)
    requires Enabled(s, a) && Trusted(world, a) && LegalRun(world, Step(s, a), rest)
    ensures LegalRun(world, s, [a] + rest) && Run(world, s, [a] + rest) == Run(world, Step(s, a), rest)
  {
    assert ([a] + rest)[0] == a && ([a] + rest)[1..] == rest;
  }

  lemma {:induction false} RunConcat(world: World, s: State, x: seq<Action>, y: seq<Action>)
    requires LegalRun(world, s, x) && LegalRun(world, Run(world, s, x), y)
    ensures LegalRun(world, s, x + y) && Run(world, s, x + y) == Run(world, Run(world, s, x), y)
    decreases |x|
  {
    if x == [] { assert x + y == y; } else {
      RunConcat(world, Step(s, x[0]), x[1..], y);
      LegalCons(world, s, x[0], x[1..] + y);
      assert x + y == [x[0]] + (x[1..] + y);
    }
  }

  /** One object has been listed and serves its name. */
  ghost predicate OneListed(s: State, o: Object) {
    && s.queue == [] && !s.crashed && s.watch == Watch(map[o.ref := o], None)
    && s.differ.objects == map[o.ref := o.version] && s.ledger.failed == {}
    && s.store.rawServices == map[o.ref := o] && s.store.refByGrpcService.Keys == {o.spec.serviceName}
    && s.store.tasks == map[] && s.store.services.Keys == {o.spec.serviceName}
    && Routable(s.store.services, o.spec.serviceName)
  }

  /** Consuming the apply of an object whose name is new to the store. */
  lemma ConsumePassthrough(s: State, o: Object)
    requires !s.crashed && s.queue == [Applied(o)] && Dotted(o.spec.serviceName) && o.spec.descriptorSetSource.None?
    requires s.store.rawServices.Keys <= {o.ref}
    requires o.ref in s.store.rawServices ==> s.store.rawServices[o.ref].spec.serviceName in s.store.refByGrpcService
    requires o.spec.serviceName !in s.store.refByGrpcService && o.spec.serviceName !in s.store.services
    ensures var s', name := Step(s, Consume), o.spec.serviceName;
            && !s'.crashed && s'.queue == [] && s'.watch == s.watch && s'.differ == s.differ && s'.ledger.failed == s.ledger.failed
            && s'.store.rawServices == map[o.ref := o] && s'.store.tasks == s.store.tasks
            && s'.store.refByGrpcService.Keys == s.store.refByGrpcService.Keys + {name}
            && s'.store.services.Keys == s.store.services.Keys + {name} && Routable(s'.store.services, name)
            && (forall n :: n in s.store.services ==> s'.store.services[n] == s.store.services[n])
  {
    ApplyPassthrough(s.store, o);
  }

  /** The object is applied and the end of its listing is awaited. */
  ghost predicate OnePending(s: State, o: Object) {
    && s.queue == [] && !s.crashed && s.watch == Watch(map[], Some(map[o.ref := o]))
    && s.differ == Differ(map[o.ref := o.version], {o.ref}) && s.ledger.failed == {}
    && s.store.rawServices == map[o.ref := o] && s.store.refByGrpcService.Keys == {o.spec.serviceName}
    && s.store.tasks == map[] && s.store.services.Keys == {o.spec.serviceName}
    && Routable(s.store.services, o.spec.serviceName)
  }

  lemma BeginListing(world: World, o: Object)
    requires Genuine(world, o) && Dotted(o.spec.serviceName) && o.spec.descriptorSetSource.None?
    ensures LegalRun(world, INITIAL, ListRun(o)[..3]) && OnePending(Run(world, INITIAL, ListRun(o)[..3]), o)
  {
    var s1 := Step(INITIAL, Deliver(Init, []));
    var s2 := Step(s1, Deliver(InitApply(o), []));
    assert s2.queue == [Applied(o)] && s2.store == EMPTY && s2.watch == Watch(map[], Some(map[o.ref := o]));
    ConsumePassthrough(s2, o);
    LegalCons(world, s2, Consume, []);
    LegalCons(world, s1, Deliver(InitApply(o), []), [Consume]);
    LegalCons(world, INITIAL, Deliver(Init, []), [Deliver(InitApply(o), []), Consume]);
    assert ListRun(o)[..3] == [Deliver(Init, []), Deliver(InitApply(o), []), Consume];
  }

  lemma EndListing(world: World, s: State, o: Object)
    requires OnePending(s, o)
    ensures var actions := [Deliver(InitDone, []), Consume];
            LegalRun(world, s, actions) && OneListed(Run(world, s, actions), o)
  {
    assert Enumeration([], Swept(s.differ));
    var s1 := Step(s, Deliver(InitDone, []));
    assert s1.queue == Deletions([]) + [Ready] == [Ready];
    assert s1.differ.objects == map[o.ref := o.version];
    assert OneListed(Step(s1, Consume), o);
    LegalCons(world, s1, Consume, []);
    LegalCons(world, s, Deliver(InitDone, []), [Consume]);
  }

  lemma ListingOne(world: World, o: Object)
    requires Genuine(world, o) && Dotted(o.spec.serviceName) && o.spec.descriptorSetSource.None?
    ensures LegalRun(world, INITIAL, ListRun(o)) && OneListed(Run(world, INITIAL, ListRun(o)), o)
  {
    BeginListing(world, o);
    EndListing(world, Run(world, INITIAL, ListRun(o)[..3]), o);
    RunConcat(world, INITIAL, ListRun(o)[..3], [Deliver(InitDone, []), Consume]);
    assert ListRun(o) == ListRun(o)[..3] + [Deliver(InitDone, []), Consume];
  }

  lemma RenamingListed(world: World, s: State, o: Object, o': Object)
    requires OneListed(s, o) && o'.ref == o.ref && o'.version != o.version && o'.spec.serviceName != o.spec.serviceName
    requires Genuine(world, o') && Dotted(o'.spec.serviceName) && o'.spec.descriptorSetSource.None?
    ensures var actions := [Deliver(Apply(o'), []), Consume];
            && LegalRun(world, s, actions)
            && var s' := Run(world, s, actions);
               Settled(s') && s'.watch.objects == map[o.ref := o'] && Routable(s'.store.services, o.spec.serviceName)
  {
    var s1 := Step(s, Deliver(Apply(o'), []));
    assert s1.queue == [Applied(o')] && s1.store == s.store && s1.watch == Watch(map[o.ref := o'], None);
    ConsumePassthrough(s1, o');
    LegalCons(world, s1, Consume, []);
    LegalCons(world, s, Deliver(Apply(o'), []), [Consume]);
  }

  /** The convergence gap on a concrete run: everything has settled, no object declares `a` any
      more, and `a` is still routed to the renamed object's upstream. */
  lemma RenameLeavesOldRoute(r: ObjectRef, a: string, b: string, u: Upstream)
    requires a != b && Dotted(a) && Dotted(b)
    ensures var world, actions := RenameWorld(a, b, u), RenameRun(r, a, b, u);
            && LegalRun(world, INITIAL, actions)
            && var s := Run(world, INITIAL, actions);
               Settled(s) && Elected(s.watch.objects, a) == None && Routable(s.store.services, a)
  {
    var world := RenameWorld(a, b, u);
    var o, o' := Named(r, "1", a, u), Named(r, "2", b, u);
    ListingOne(world, o);
    var s := Run(world, INITIAL, ListRun(o));
    RenamingListed(world, s, o, o');
    RunConcat(world, INITIAL, ListRun(o), [Deliver(Apply(o'), []), Consume]);
    assert RefsOf(map[r := o'], a) == {};
  }

  // ---- Generations only grow, so nothing is resurrected ----

  ghost predicate Later(s: State, s': State) {
    && s.ledger.issued <= s'.ledger.issued
    && forall n :: n in s.store.services ==>
         n in s'.store.services && s.store.services[n].generation <= s'.store.services[n].generation
  }

  ghost predicate LedgerGrows(l: Ledger, l': Ledger) {
    && l.issued <= l'.issued && |l'.issued| <= |l.issued| + 1
    && (forall g :: g in l.installed ==> g in l'.installed)
    && l.failed <= l'.failed
  }

  lemma StepGrowsLedger(s: State, a: Action)
    requires Enabled(s, a)
    ensures LedgerGrows(s.ledger, Step(s, a).ledger)
  {
  }

  lemma GrowthIsLater(s: State, s': State)
    requires LedgerGrows(s.ledger, s'.ledger)
    requires NewestInstalled(s.store.services, s.ledger) && NewestInstalled(s'.store.services, s'.ledger)
    ensures Later(s, s')
  {
    forall n | n in s.store.services
      ensures n in s'.store.services && s.store.services[n].generation <= s'.store.services[n].generation
    {
      var g := s.store.services[n].generation;
      assert g in s'.ledger.installed && s'.ledger.issued[g] == s.ledger.issued[g];
    }
  }

  /** The installed generation of a name never decreases along any run, even through the
      unconditional insert of a tombstone, and no key ever disappears. */
  lemma {:induction false} RunOnlyMovesForward(world: World, s: State, actions: seq<Action>)
    requires Inv(world, s) && LegalRun(world, s, actions)
    ensures Later(s, Run(world, s, actions))
    decreases |actions|
  {
    if actions != [] {
      var s' := Step(s, actions[0]);
      StepKeepsInv(world, s, actions[0]);
      StepGrowsLedger(s, actions[0]);
      GrowthIsLater(s, s');
      RunOnlyMovesForward(world, s', actions[1..]);
    }
  }

  lemma TombstoneBlocks(s: State, s': State, n: string)
    requires Later(s, s') && n in s.store.services && s.store.services[n].loadBalancer.None?
    requires Contents(s.store.tasks, s.ledger) && NewestInstalled(s.store.services, s.ledger)
    requires Contents(s'.store.tasks, s'.ledger) && NewestInstalled(s'.store.services, s'.ledger)
    ensures Routable(s'.store.services, n) ==>
              var t, g := s.store.services[n].generation, s'.store.services[n].generation;
              t < g < |s'.ledger.issued| && s'.ledger.issued[g].name == n && s'.ledger.issued[g].obj.Some?
  {
    var t, g := s.store.services[n].generation, s'.store.services[n].generation;
    assert Offers(s.store.services[n], t, s.ledger.issued[t], LoadedFor(s.ledger, t));
    assert Offers(s'.store.services[n], g, s'.ledger.issued[g], LoadedFor(s'.ledger, g));
    assert s'.ledger.issued[t] == s.ledger.issued[t];
  }

  /** No resurrection: once a tombstone for `n` with generation `t` is in place, `n` becomes
      routable again only through an `update_service(n)` issued after it; if there is none, it
      stays unroutable in every continuation, whichever older tasks complete. */
  lemma NoResurrection(world: World, before: seq<Action>, after: seq<Action>, n: string)
    requires LegalRun(world, INITIAL, before)
    requires LegalRun(world, Run(world, INITIAL, before), after)
    requires var s := Run(world, INITIAL, before); n in s.store.services && s.store.services[n].loadBalancer.None?
    ensures var s := Run(world, INITIAL, before);
            var s' := Run(world, s, after);
            var t := s.store.services[n].generation;
            && (Routable(s'.store.services, n) ==>
                  var g := s'.store.services[n].generation;
                  t < g < |s'.ledger.issued| && s'.ledger.issued[g].name == n && s'.ledger.issued[g].obj.Some?)
            && ((forall g :: t < g < |s'.ledger.issued| ==> s'.ledger.issued[g].name != n) ==> !Routable(s'.store.services, n))
  {
    var s := Run(world, INITIAL, before);
    var s' := Run(world, s, after);
    Reachable(world, before);
    RunKeepsInv(world, s, after);
    RunOnlyMovesForward(world, s, after);
    TombstoneBlocks(s, s', n);
  }

  // ---- Replicas agree ----

  /** Two replicas that have settled on the same object set, by whatever histories, listings and
      sweep orders, serve every name that is stale in neither from the same object. */
  lemma ReplicasAgree(world: World, one: seq<Action>, other: seq<Action>, n: string)
    requires LegalRun(world, INITIAL, one) && SettledFor(Run(world, INITIAL, one), n)
    requires LegalRun(world, INITIAL, other) && SettledFor(Run(world, INITIAL, other), n)
    requires Run(world, INITIAL, one).watch.objects == Run(world, INITIAL, other).watch.objects
    ensures var a, b := Run(world, INITIAL, one), Run(world, INITIAL, other);
            && Elected(a.store.rawServices, n) == Elected(b.store.rawServices, n)
            && (n !in a.stale && n !in b.stale ==>
                  Served(a, n) == Served(b, n) && (Routable(a.store.services, n) <==> Routable(b.store.services, n)))
  {
    Reachable(world, one);
    Reachable(world, other);
    SettledRawIsWatched(world, Run(world, INITIAL, one));
    SettledRawIsWatched(world, Run(world, INITIAL, other));
    ServesElectedIff(world, one, n);
    ServesElectedIff(world, other, n);
  }
}
