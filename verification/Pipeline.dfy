/** The live-reload pipeline: watch events, the change stream, the config loop and the spawned
    descriptor tasks, interleaved in every possible way. */
module Pipeline {
  import opened Text
  import opened Names
  import opened Resources
  import opened ResourceChange
  import opened ServiceStore

  // ---- Bookkeeping of every `update_service` call ----

  /** The call that took generation `g` is `issued[g]`, with the object it elected. */
  datatype Issue = Issue(name: string, obj: Option<Object>)

  /** `installed[g]` is what call `g` offered to `services` once it completed, `loaded[g]` the
      descriptors its task loaded for that; `failed` are the calls whose task died. */
  datatype Ledger = Ledger(issued: seq<Issue>, installed: map<nat, ServiceData>, loaded: map<nat, string>, failed: set<nat>)

  /** Enter the `update_service(name)` that led to `st`. */
  ghost function Record(l: Ledger, st: Store, name: string): Ledger {
    var g := |l.issued|;
    var l' := l.(issued := l.issued + [Issue(name, Elected(st.rawServices, name))]);
    if g in st.tasks || name !in st.services then l' else l'.(installed := l.installed[g := st.services[name]])
  }

  /** Enter the completion of task `t` of generation `g`. */
  ghost function Loaded(l: Ledger, g: nat, t: Task, descriptors: string): Ledger {
    l.(installed := l.installed[g := TaskData(t, descriptors)], loaded := l.loaded[g := descriptors])
  }

  // ---- The system ----

  datatype State = State(
    watch: Watch,
    differ: Differ,
    queue: seq<Change>,
    store: Store,
    ledger: Ledger,
    stale: set<string>,
    crashed: bool)

  const INITIAL := State(Watch(map[], None), Differ(map[], {}), [], EMPTY, Ledger([], map[], map[], {}), {}, false)

  datatype Action =
    | Deliver(event: Event, order: seq<ObjectRef>)
    | Consume
    | Finish(generation: nat, descriptors: Option<string>)

  /** The change stream is pulled: the next watch event is looked at only when every change of
      the last one has been consumed. A task finishes, or dies, at any time. */
  ghost predicate Enabled(s: State, a: Action) {
    && !s.crashed
    && match a
       case Deliver(e, order) => s.queue == [] && WellFormed(s.watch, e) && SweepOrder(s.differ, e, order)
       case Consume => s.queue != []
       case Finish(g, _) => g in s.store.tasks
  }

  /** The name an object leaves behind when the object that was elected for it is renamed. */
  ghost function Abandoned(raw: map<ObjectRef, Object>, o: Object): set<string> {
    if o.ref in raw && raw[o.ref].spec.serviceName != o.spec.serviceName
       && o.ref in RefsOf(raw, raw[o.ref].spec.serviceName)
       && Elect(RefsOf(raw, raw[o.ref].spec.serviceName)) == o.ref
    then {raw[o.ref].spec.serviceName} else {}
  }

  ghost function ConsumeChange(s: State, c: Change): State {
    match c
    case Applied(o) =>
      (match ApplyChange(s.store, o)
       case None => s.(crashed := true)
       case Some(st) =>
         s.(store := st, ledger := Record(s.ledger, st, o.spec.serviceName),
            stale := s.stale + Abandoned(s.store.rawServices, o) - {o.spec.serviceName}))
    case Deleted(r) =>
      if r !in s.store.rawServices then s
      else
        var name := s.store.rawServices[r].spec.serviceName;
        (match RemoveChange(s.store, r)
         case None => s.(crashed := true)
         case Some(st) => s.(store := st, ledger := Record(s.ledger, st, name), stale := s.stale - {name}))
    case Ready => s
    case Failed => s
  }

  ghost function FinishTask(s: State, g: nat, descriptors: Option<string>): State
    requires g in s.store.tasks
  {
    match descriptors
    case Some(d) =>
      s.(store := Complete(s.store, g, d),
         ledger := Loaded(s.ledger, g, s.store.tasks[g], d))
    case None =>
      s.(store := s.store.(tasks := s.store.tasks - {g}), ledger := s.ledger.(failed := s.ledger.failed + {g}))
  }

  ghost function Step(s: State, a: Action): State
    requires Enabled(s, a)
  {
    match a
    case Deliver(e, order) =>
      s.(watch := Observe(s.watch, e), differ := Advance(s.differ, e), queue := Emitted(s.differ, e, order))
    case Consume => ConsumeChange(s, s.queue[0]).(queue := s.queue[1..])
    case Finish(g, d) => FinishTask(s, g, d)
  }

  /** Objects come from one world and every service name can be parsed. */
  ghost predicate Trusted(world: World, a: Action) {
    a.Deliver? && (a.event.InitApply? || a.event.Apply?) ==>
      Genuine(world, a.event.obj) && Dotted(a.event.obj.spec.serviceName)
  }

  ghost predicate LegalRun(world: World, s: State, actions: seq<Action>)
    decreases |actions|
  {
    actions == [] ||
    (Enabled(s, actions[0]) && Trusted(world, actions[0]) && LegalRun(world, Step(s, actions[0]), actions[1..]))
  }

  ghost function Run(world: World, s: State, actions: seq<Action>): State
    requires LegalRun(world, s, actions)
    decreases |actions|
  {
    if actions == [] then s else Run(world, Step(s, actions[0]), actions[1..])
  }

  // ---- The generation invariant ----

  ghost predicate TaskMatches(g: nat, i: Issue, t: Task) {
    && i.obj.Some? && i.obj.value.spec.serviceName == i.name
    && i.obj.value.spec.descriptorSetSource.Some? && Parse(i.name).Ok?
    && t == Task(g, i.name, Parse(i.name).value, i.obj.value.spec.descriptorSetSource.value, i.obj.value.spec.upstream)
  }

  ghost function LoadedFor(l: Ledger, g: nat): Option<string> { if g in l.loaded then Some(l.loaded[g]) else None }

  ghost predicate Offerable(i: Issue, descriptors: Option<string>) {
    i.obj.Some? ==>
      && i.obj.value.spec.serviceName == i.name && Parse(i.name).Ok?
      && (i.obj.value.spec.descriptorSetSource.Some? ==> descriptors.Some?)
  }

  /** What call `g` installs: a tombstone if no object declares the name, and otherwise the
      upstream of the elected object with a pass-through spec, or with the spec built from the
      descriptors that its own task loaded. */
  ghost function Offer(g: nat, i: Issue, descriptors: Option<string>): ServiceData
    requires Offerable(i, descriptors)
  {
    match i.obj
    case None => Tombstone(g)
    case Some(o) =>
      var service := Parse(i.name).value;
      var spec := if o.spec.descriptorSetSource.None? then Passthrough(service) else Built(descriptors.value, service);
      ServiceData(g, Some(spec), Some(o.spec.upstream))
  }

  ghost predicate Offers(data: ServiceData, g: nat, i: Issue, descriptors: Option<string>) {
    Offerable(i, descriptors) && data == Offer(g, i, descriptors)
  }

  /** Tasks and installs carry what the object elected by their call says. */
  ghost predicate Contents(tasks: map<nat, Task>, l: Ledger) {
    && (forall g :: g in tasks ==> g < |l.issued| && TaskMatches(g, l.issued[g], tasks[g]))
    && (forall g :: g in l.installed ==> g < |l.issued| && Offers(l.installed[g], g, l.issued[g], LoadedFor(l, g)))
  }

  /** Every generation below the counter belongs to one call, which is pending, done or dead. */
  ghost predicate Partition(tasks: map<nat, Task>, l: Ledger) {
    && (forall g :: g in tasks ==>
          g < |l.issued| && g !in l.installed && g !in l.failed && tasks[g].generation == g && tasks[g].serviceName == l.issued[g].name)
    && (forall g :: g in l.installed ==> g < |l.issued| && g !in l.failed && l.installed[g].generation == g)
    && (forall g :: g in l.failed ==> g < |l.issued|)
    && (forall g :: g in l.loaded ==> g in l.installed)
    && (forall g: nat :: g < |l.issued| ==> g in tasks || g in l.installed || g in l.failed)
  }

  /** `services[n]` is the completed install for `n` with the greatest generation. */
  ghost predicate NewestInstalled(services: map<string, ServiceData>, l: Ledger) {
    && (forall n :: n in services ==>
          var g := services[n].generation;
          g in l.installed && g < |l.issued| && l.issued[g].name == n && l.installed[g] == services[n])
    && (forall g :: g in l.installed ==>
          g < |l.issued| && l.issued[g].name in services && g <= services[l.issued[g].name].generation)
  }

  ghost predicate LedgerInv(st: Store, l: Ledger) {
    && st.specGeneration == |l.issued|
    && Partition(st.tasks, l) && NewestInstalled(st.services, l) && Contents(st.tasks, l)
  }

  /** A call that installs at once takes the newest generation, so it wins whatever it finds. */
  lemma NewestAfterIssue(services: map<string, ServiceData>, l: Ledger, i: Issue, data: ServiceData)
    requires NewestInstalled(services, l) && data.generation == |l.issued|
    ensures UpdateServiceIfNewer(services, i.name, data) == services[i.name := data]
    ensures NewestInstalled(services[i.name := data],
                            l.(issued := l.issued + [i], installed := l.installed[|l.issued| := data]))
  {
    var l', services' := l.(issued := l.issued + [i], installed := l.installed[|l.issued| := data]), services[i.name := data];
    forall n | n in services'
      ensures var g := services'[n].generation; g in l'.installed && l'.issued[g].name == n && l'.installed[g] == services'[n]
    {
      if n != i.name { assert services'[n] == services[n]; }
    }
    forall h | h in l'.installed
      ensures h < |l'.issued| && l'.issued[h].name in services' && h <= services'[l'.issued[h].name].generation
    {
      if h != |l.issued| { assert l'.issued[h] == l.issued[h]; }
    }
  }

  lemma PartitionAfterIssue(tasks: map<nat, Task>, l: Ledger, i: Issue, data: ServiceData)
    requires Partition(tasks, l) && data.generation == |l.issued|
    ensures Partition(tasks, l.(issued := l.issued + [i], installed := l.installed[|l.issued| := data]))
  {
  }

  lemma NewestAfterSpawn(services: map<string, ServiceData>, l: Ledger, i: Issue)
    requires NewestInstalled(services, l)
    ensures NewestInstalled(services, l.(issued := l.issued + [i]))
  {
    assert forall h :: h in l.installed ==> (l.issued + [i])[h] == l.issued[h];
  }

  lemma PartitionAfterSpawn(tasks: map<nat, Task>, l: Ledger, i: Issue, t: Task)
    requires Partition(tasks, l) && t.generation == |l.issued| && t.serviceName == i.name
    ensures Partition(tasks[|l.issued| := t], l.(issued := l.issued + [i]))
  {
  }

  lemma ContentsAfterIssue(tasks: map<nat, Task>, l: Ledger, i: Issue, data: ServiceData)
    requires Partition(tasks, l) && Contents(tasks, l) && Offers(data, |l.issued|, i, None)
    ensures Contents(tasks, l.(issued := l.issued + [i], installed := l.installed[|l.issued| := data]))
  {
    var l' := l.(issued := l.issued + [i], installed := l.installed[|l.issued| := data]);
    assert LoadedFor(l', |l.issued|) == None;
    forall h | h in l'.installed ensures Offers(l'.installed[h], h, l'.issued[h], LoadedFor(l', h)) {
      if h != |l.issued| { assert LoadedFor(l', h) == LoadedFor(l, h); }
    }
  }

  lemma ContentsAfterSpawn(tasks: map<nat, Task>, l: Ledger, i: Issue, t: Task)
    requires Contents(tasks, l) && TaskMatches(|l.issued|, i, t)
    ensures Contents(tasks[|l.issued| := t], l.(issued := l.issued + [i]))
  {
    var l' := l.(issued := l.issued + [i]);
    forall h | h in l'.installed ensures Offers(l'.installed[h], h, l'.issued[h], LoadedFor(l', h)) {
      assert LoadedFor(l', h) == LoadedFor(l, h);
    }
  }

  /** The call spawns a task, so what it installs is not known yet. */
  ghost predicate Spawns(i: Issue) { i.obj.Some? && i.obj.value.spec.descriptorSetSource.Some? }

  /** The ledger after a call, which depends on the counter and the elected object only. */
  ghost function Entered(l: Ledger, i: Issue): Ledger
    requires Spawns(i) || Offerable(i, None)
  {
    var g, l' := |l.issued|, l.(issued := l.issued + [i]);
    if Spawns(i) then l' else l'.(installed := l.installed[g := Offer(g, i, None)])
  }

  lemma SpawnKeepsLedger(st: Store, l: Ledger, i: Issue, t: Task)
    requires LedgerInv(st, l) && TaskMatches(|l.issued|, i, t)
    ensures LedgerInv(st.(specGeneration := |l.issued| + 1, tasks := st.tasks[|l.issued| := t]), l.(issued := l.issued + [i]))
  {
    NewestAfterSpawn(st.services, l, i);
    PartitionAfterSpawn(st.tasks, l, i, t);
    ContentsAfterSpawn(st.tasks, l, i, t);
  }

  lemma InstallKeepsLedger(st: Store, l: Ledger, i: Issue)
    requires LedgerInv(st, l) && Offerable(i, None)
    ensures var g, data := |l.issued|, Offer(|l.issued|, i, None);
            && UpdateServiceIfNewer(st.services, i.name, data) == st.services[i.name := data]
            && LedgerInv(st.(specGeneration := g + 1, services := st.services[i.name := data]),
                         l.(issued := l.issued + [i], installed := l.installed[g := data]))
  {
    var data := Offer(|l.issued|, i, None);
    NewestAfterIssue(st.services, l, i, data);
    PartitionAfterIssue(st.tasks, l, i, data);
    ContentsAfterIssue(st.tasks, l, i, data);
  }

  lemma NextGenerationFree(tasks: map<nat, Task>, l: Ledger)
    requires Partition(tasks, l)
    ensures |l.issued| !in tasks
  {
  }

  lemma SpawnEnters(st: Store, l: Ledger, i: Issue, st': Store)
    requires LedgerInv(st, l) && Spawns(i) && i.obj == Elected(st.rawServices, i.name) && Updated(st, i.name, i.obj, st')
    ensures Record(l, st', i.name) == Entered(l, i) && LedgerInv(st', Entered(l, i))
    ensures TasksAfter(st.tasks, |l.issued|, i, st'.tasks) && st'.services == st.services
  {
    SpawnKeepsLedger(st, l, i, st'.tasks[|l.issued|]);
  }

  lemma InstallEnters(st: Store, l: Ledger, i: Issue, st': Store)
    requires LedgerInv(st, l) && !Spawns(i) && i.obj == Elected(st.rawServices, i.name) && Updated(st, i.name, i.obj, st')
    ensures Offerable(i, None) && Record(l, st', i.name) == Entered(l, i) && LedgerInv(st', Entered(l, i))
    ensures TasksAfter(st.tasks, |l.issued|, i, st'.tasks)
  {
    NextGenerationFree(st.tasks, l);
    InstallKeepsLedger(st, l, i);
    assert st'.services == st.services[i.name := Offer(|l.issued|, i, None)];
  }

  /** The pending tasks after call `g`. */
  ghost predicate TasksAfter(tasks: map<nat, Task>, g: nat, i: Issue, tasks': map<nat, Task>) {
    if Spawns(i) then g in tasks' && TaskMatches(g, i, tasks'[g]) && tasks' == tasks[g := tasks'[g]]
    else tasks' == tasks
  }

  lemma UpdateEnters(st: Store, l: Ledger, name: string, st': Store)
    requires LedgerInv(st, l) && Updated(st, name, Elected(st.rawServices, name), st')
    ensures var i := Issue(name, Elected(st.rawServices, name));
            && (Spawns(i) || Offerable(i, None))
            && Record(l, st', name) == Entered(l, i) && LedgerInv(st', Entered(l, i))
            && TasksAfter(st.tasks, |l.issued|, i, st'.tasks)
  {
    var i := Issue(name, Elected(st.rawServices, name));
    if Spawns(i) { SpawnEnters(st, l, i, st'); } else { InstallEnters(st, l, i, st'); }
  }

  lemma UpdateKeepsLedger(st: Store, l: Ledger, name: string)
    requires Indexed(st) && AllDotted(st.rawServices) && name in st.refByGrpcService && LedgerInv(st, l)
    ensures UpdateService(st, name).Some?
    ensures LedgerInv(UpdateService(st, name).value, Record(l, UpdateService(st, name).value, name))
  {
    UpdateServiceOutcome(st, name);
    UpdateEnters(st, l, name, UpdateService(st, name).value);
  }

  lemma NewestAfterCompletion(services: map<string, ServiceData>, l: Ledger, g: nat, t: Task, d: string)
    requires NewestInstalled(services, l) && g < |l.issued| && g !in l.installed
    requires t.generation == g && t.serviceName == l.issued[g].name
    ensures NewestInstalled(UpdateServiceIfNewer(services, t.serviceName, TaskData(t, d)), Loaded(l, g, t, d))
  {
  }

  lemma PartitionAfterCompletion(tasks: map<nat, Task>, l: Ledger, g: nat, d: string)
    requires Partition(tasks, l) && g in tasks
    ensures Partition(tasks - {g}, Loaded(l, g, tasks[g], d))
  {
  }

  lemma CompletedContents(tasks: map<nat, Task>, l: Ledger, g: nat, d: string)
    requires Partition(tasks, l) && Contents(tasks, l) && g in tasks
    ensures Contents(tasks - {g}, Loaded(l, g, tasks[g], d))
  {
    var l' := Loaded(l, g, tasks[g], d);
    assert TaskMatches(g, l.issued[g], tasks[g]);
    assert LoadedFor(l', g) == Some(d);
    forall h | h in l'.installed ensures Offers(l'.installed[h], h, l'.issued[h], LoadedFor(l', h)) {
      if h != g { assert LoadedFor(l', h) == LoadedFor(l, h) && l'.installed[h] == l.installed[h]; }
    }
  }

  lemma PartitionAfterDeath(tasks: map<nat, Task>, l: Ledger, g: nat)
    requires Partition(tasks, l) && g in tasks
    ensures Partition(tasks - {g}, l.(failed := l.failed + {g}))
  {
  }

  lemma ContentsAfterDeath(tasks: map<nat, Task>, l: Ledger, g: nat)
    requires Contents(tasks, l)
    ensures Contents(tasks - {g}, l.(failed := l.failed + {g}))
  {
    assert forall h :: h in l.installed ==> LoadedFor(l.(failed := l.failed + {g}), h) == LoadedFor(l, h);
  }

  lemma NewestAfterDeath(services: map<string, ServiceData>, l: Ledger, g: nat)
    requires NewestInstalled(services, l)
    ensures NewestInstalled(services, l.(failed := l.failed + {g}))
  {
  }

  lemma FinishKeepsLedger(s: State, g: nat, d: Option<string>)
    requires LedgerInv(s.store, s.ledger) && g in s.store.tasks
    ensures LedgerInv(FinishTask(s, g, d).store, FinishTask(s, g, d).ledger)
  {
    match d {
      case Some(d) =>
        NewestAfterCompletion(s.store.services, s.ledger, g, s.store.tasks[g], d);
        PartitionAfterCompletion(s.store.tasks, s.ledger, g, d);
        CompletedContents(s.store.tasks, s.ledger, g, d);
      case None =>
        NewestAfterDeath(s.store.services, s.ledger, g);
        PartitionAfterDeath(s.store.tasks, s.ledger, g);
        ContentsAfterDeath(s.store.tasks, s.ledger, g);
    }
  }

  // ---- Which object the last call for a name elected ----

  ghost function LastIssue(issued: seq<Issue>, name: string): int
    ensures -1 <= LastIssue(issued, name) < |issued|
    ensures LastIssue(issued, name) >= 0 ==> issued[LastIssue(issued, name)].name == name
    ensures forall g :: LastIssue(issued, name) < g < |issued| ==> issued[g].name != name
  {
    if issued == [] then -1
    else if issued[|issued| - 1].name == name then |issued| - 1
    else LastIssue(issued[..|issued| - 1], name)
  }

  ghost function LastElected(issued: seq<Issue>, name: string): Option<Object> {
    var g := LastIssue(issued, name);
    if g < 0 then None else issued[g].obj
  }

  lemma LastElectedAppend(issued: seq<Issue>, i: Issue, name: string)
    ensures LastElected(issued + [i], name) == if i.name == name then i.obj else LastElected(issued, name)
  {
    assert (issued + [i])[..|issued|] == issued;
  }

  /** The object `o`, once elected for `name`, no longer declares it. */
  ghost predicate Departed(raw: map<ObjectRef, Object>, o: Object, name: string) {
    o.spec.serviceName == name && !(o.ref in raw && raw[o.ref].spec.serviceName == name)
  }

  /** The last election for a name is current exactly when the name is not stale. */
  ghost predicate Current(raw: map<ObjectRef, Object>, issued: seq<Issue>, stale: set<string>) {
    forall n :: if n in stale then LastElected(issued, n).Some? && Departed(raw, LastElected(issued, n).value, n)
                else LastElected(issued, n) == Elected(raw, n)
  }

  lemma CurrentAfterApply(raw: map<ObjectRef, Object>, issued: seq<Issue>, stale: set<string>, o: Object)
    requires Current(raw, issued, stale) && Keyed(raw)
    ensures var raw' := raw[o.ref := o];
            Current(raw', issued + [Issue(o.spec.serviceName, Elected(raw', o.spec.serviceName))],
                    stale + Abandoned(raw, o) - {o.spec.serviceName})
  {
    var name, raw' := o.spec.serviceName, raw[o.ref := o];
    var i := Issue(name, Elected(raw', name));
    var stale' := stale + Abandoned(raw, o) - {name};
    forall n
      ensures if n in stale' then LastElected(issued + [i], n).Some? && Departed(raw', LastElected(issued + [i], n).value, n)
              else LastElected(issued + [i], n) == Elected(raw', n)
    {
      LastElectedAppend(issued, i, n);
      if n != name {
        assert RefsOf(raw', n) == RefsOf(raw, n) - {o.ref};
        if o.ref in RefsOf(raw, n) {
          if Elect(RefsOf(raw, n)) != o.ref { ElectWithout(RefsOf(raw, n), o.ref); }
        } else {
          assert RefsOf(raw', n) == RefsOf(raw, n);
        }
      }
    }
  }

  lemma CurrentAfterRemove(raw: map<ObjectRef, Object>, issued: seq<Issue>, stale: set<string>, r: ObjectRef)
    requires Current(raw, issued, stale) && r in raw
    ensures var name := raw[r].spec.serviceName;
            Current(raw - {r}, issued + [Issue(name, Elected(raw - {r}, name))], stale - {name})
  {
    var name, raw' := raw[r].spec.serviceName, raw - {r};
    var i := Issue(name, Elected(raw', name));
    forall n
      ensures if n in stale - {name} then LastElected(issued + [i], n).Some? && Departed(raw', LastElected(issued + [i], n).value, n)
              else LastElected(issued + [i], n) == Elected(raw', n)
    {
      LastElectedAppend(issued, i, n);
      if n != name { assert RefsOf(raw', n) == RefsOf(raw, n); }
    }
  }

  // ---- The invariant of every run ----

  ghost predicate ChangeTrusted(world: World, c: Change) {
    c.Applied? ==> Genuine(world, c.obj) && Dotted(c.obj.spec.serviceName)
  }

  ghost predicate QueueTrusted(world: World, queue: seq<Change>) {
    forall i :: 0 <= i < |queue| ==> ChangeTrusted(world, queue[i])
  }

  /** A `Ready` in flight is the end of a finished listing. */
  ghost predicate ReadyLast(s: State) {
    forall i :: 0 <= i < |s.queue| && s.queue[i] == Ready ==> i == |s.queue| - 1 && s.watch.pending.None?
  }

  /** What holds of the store side between two changes. */
  ghost predicate StoreInv(world: World, s: State) {
    && !s.crashed && Indexed(s.store) && AllDotted(s.store.rawServices)
    && LedgerInv(s.store, s.ledger)
    && Current(s.store.rawServices, s.ledger.issued, s.stale)
    && AllGenuine(world, s.store.rawServices)
  }

  ghost predicate Inv(world: World, s: State) {
    && StoreInv(world, s)
    && Tracks(s.watch, s.differ, Fold(s.store.rawServices, s.queue))
    && GenuineWatch(world, s.watch) && QueueTrusted(world, s.queue) && ReadyLast(s)
  }

  lemma InitialInv(world: World)
    ensures Inv(world, INITIAL)
  {
    forall n ensures Elected(map[], n) == None { assert RefsOf(map[], n) == {}; }
  }

  lemma InsertedIsReady(st: Store, l: Ledger, o: Object)
    requires Indexed(st) && AllDotted(st.rawServices) && LedgerInv(st, l) && Dotted(o.spec.serviceName)
    ensures Insert(st, o).Some?
    ensures var mid := Insert(st, o).value;
            && Indexed(mid) && AllDotted(mid.rawServices) && LedgerInv(mid, l) && o.spec.serviceName in mid.refByGrpcService
            && mid.rawServices == st.rawServices[o.ref := o]
  {
    InsertKeepsIndex(st, o);
  }

  lemma ApplyEffect(st: Store, l: Ledger, o: Object)
    requires Indexed(st) && AllDotted(st.rawServices) && LedgerInv(st, l) && Dotted(o.spec.serviceName)
    ensures ApplyChange(st, o).Some?
    ensures var st' := ApplyChange(st, o).value;
            && st'.rawServices == st.rawServices[o.ref := o]
            && Indexed(st') && LedgerInv(st', Record(l, st', o.spec.serviceName))
  {
    InsertedIsReady(st, l, o);
    var mid := Insert(st, o).value;
    UpdateServiceEffect(mid, o.spec.serviceName);
    UpdateKeepsLedger(mid, l, o.spec.serviceName);
  }

  lemma RemoveEffect(st: Store, l: Ledger, r: ObjectRef)
    requires Indexed(st) && AllDotted(st.rawServices) && LedgerInv(st, l) && r in st.rawServices
    ensures RemoveChange(st, r).Some?
    ensures var st' := RemoveChange(st, r).value;
            && st'.rawServices == st.rawServices - {r}
            && Indexed(st') && LedgerInv(st', Record(l, st', st.rawServices[r].spec.serviceName))
  {
    RemoveKeepsIndex(st, r);
    var mid := RemoveNoUpdate(st, r).value;
    UpdateServiceEffect(mid, st.rawServices[r].spec.serviceName);
    UpdateKeepsLedger(mid, l, st.rawServices[r].spec.serviceName);
  }

  lemma RecordIssue(l: Ledger, st: Store, name: string)
    ensures Record(l, st, name).issued == l.issued + [Issue(name, Elected(st.rawServices, name))]
  {
  }

  lemma ConsumeApplied(world: World, s: State, o: Object)
    requires StoreInv(world, s) && ChangeTrusted(world, Applied(o))
    ensures var s' := ConsumeChange(s, Applied(o));
            StoreInv(world, s') && s'.store.rawServices == s.store.rawServices[o.ref := o]
  {
    ApplyEffect(s.store, s.ledger, o);
    var st := ApplyChange(s.store, o).value;
    RecordIssue(s.ledger, st, o.spec.serviceName);
    CurrentAfterApply(s.store.rawServices, s.ledger.issued, s.stale, o);
  }

  lemma ConsumeDeleted(world: World, s: State, r: ObjectRef)
    requires StoreInv(world, s)
    ensures var s' := ConsumeChange(s, Deleted(r));
            StoreInv(world, s') && s'.store.rawServices == s.store.rawServices - {r}
  {
    if r in s.store.rawServices {
      RemoveEffect(s.store, s.ledger, r);
      var st := RemoveChange(s.store, r).value;
      RecordIssue(s.ledger, st, s.store.rawServices[r].spec.serviceName);
      CurrentAfterRemove(s.store.rawServices, s.ledger.issued, s.stale, r);
    } else {
      assert s.store.rawServices - {r} == s.store.rawServices;
    }
  }

  /** Consuming a change absorbs it into `rawServices` and touches neither watch nor differ. */
  lemma ConsumeKeeps(world: World, s: State, c: Change)
    requires StoreInv(world, s) && ChangeTrusted(world, c)
    ensures var s' := ConsumeChange(s, c);
            && StoreInv(world, s') && s'.store.rawServices == Absorb(s.store.rawServices, c)
            && s'.watch == s.watch && s'.differ == s.differ
  {
    match c {
      case Applied(o) => ConsumeApplied(world, s, o);
      case Deleted(r) => ConsumeDeleted(world, s, r);
      case Ready =>
      case Failed =>
    }
  }

  lemma EmittedTrusted(world: World, d: Differ, a: Action)
    requires a.Deliver? && Trusted(world, a)
    ensures QueueTrusted(world, Emitted(d, a.event, a.order))
    ensures forall i :: 0 <= i < |Emitted(d, a.event, a.order)| && Emitted(d, a.event, a.order)[i] == Ready ==>
              a.event.InitDone? && i == |Emitted(d, a.event, a.order)| - 1
  {
  }

  lemma ObserveGenuine(world: World, w: Watch, a: Action)
    requires GenuineWatch(world, w) && a.Deliver? && WellFormed(w, a.event) && Trusted(world, a)
    ensures GenuineWatch(world, Observe(w, a.event))
  {
  }

  lemma DeliverKeepsInv(world: World, s: State, a: Action)
    requires Inv(world, s) && a.Deliver? && Enabled(s, a) && Trusted(world, a)
    ensures Inv(world, Step(s, a))
  {
    assert Fold(s.store.rawServices, []) == s.store.rawServices;
    TracksStep(s.watch, s.differ, s.store.rawServices, a.event, a.order);
    EmittedTrusted(world, s.differ, a);
    ObserveGenuine(world, s.watch, a);
  }

  lemma ConsumeKeepsInv(world: World, s: State)
    requires Inv(world, s) && s.queue != []
    ensures Inv(world, Step(s, Consume))
  {
    assert ChangeTrusted(world, s.queue[0]);
    ConsumeKeeps(world, s, s.queue[0]);
    var s' := Step(s, Consume);
    assert Fold(s.store.rawServices, s.queue) == Fold(s'.store.rawServices, s'.queue);
    assert forall i :: 0 <= i < |s'.queue| ==> s'.queue[i] == s.queue[i + 1];
  }

  lemma FinishKeepsInv(world: World, s: State, g: nat, d: Option<string>)
    requires Inv(world, s) && g in s.store.tasks
    ensures Inv(world, FinishTask(s, g, d))
  {
    FinishKeepsLedger(s, g, d);
  }

  lemma StepKeepsInv(world: World, s: State, a: Action)
    requires Inv(world, s) && Enabled(s, a) && Trusted(world, a)
    ensures Inv(world, Step(s, a))
  {
    match a {
      case Deliver(_, _) => DeliverKeepsInv(world, s, a);
      case Consume => ConsumeKeepsInv(world, s);
      case Finish(g, d) => FinishKeepsInv(world, s, g, d);
    }
  }

  lemma {:induction false} RunKeepsInv(world: World, s: State, actions: seq<Action>)
    requires Inv(world, s) && LegalRun(world, s, actions)
    ensures Inv(world, Run(world, s, actions))
    decreases |actions|
  {
    if actions != [] {
      StepKeepsInv(world, s, actions[0]);
      RunKeepsInv(world, Step(s, actions[0]), actions[1..]);
    }
  }

  /** The descriptors with which the task of generation `g` finished in a run. */
  ghost function FinishedWith(actions: seq<Action>, g: nat): Option<string> {
    if actions == [] then None
    else
      var later := FinishedWith(actions[1..], g);
      if later.Some? then later
      else if actions[0].Finish? && actions[0].generation == g then actions[0].descriptors
      else None
  }

  lemma StepLoads(s: State, a: Action, g: nat)
    requires Enabled(s, a)
    ensures LoadedFor(Step(s, a).ledger, g) ==
            if a.Finish? && a.generation == g && a.descriptors.Some? then a.descriptors else LoadedFor(s.ledger, g)
  {
  }

  /** The ledger's descriptors are those of the run. */
  lemma {:induction false} LoadedByActions(world: World, s: State, actions: seq<Action>, g: nat)
    requires LegalRun(world, s, actions)
    ensures LoadedFor(Run(world, s, actions).ledger, g) ==
            if FinishedWith(actions, g).Some? then FinishedWith(actions, g) else LoadedFor(s.ledger, g)
    decreases |actions|
  {
    if actions != [] {
      StepLoads(s, actions[0], g);
      LoadedByActions(world, Step(s, actions[0]), actions[1..], g);
    }
  }

  lemma Reachable(world: World, actions: seq<Action>)
    requires LegalRun(world, INITIAL, actions)
    ensures Inv(world, Run(world, INITIAL, actions))
  {
    InitialInv(world);
    RunKeepsInv(world, INITIAL, actions);
  }
}
