/** `ServiceConfigState` and the shared `services` map (grcache-proxy/src/service_store.rs). */
module ServiceStore {
  import opened Text
  import opened Names
  import opened Resources

  /** `ServiceSpec::build` is kept as a free constructor: what is proved of the term holds for
      whatever it computes. */
  datatype ServiceSpec =
    | Passthrough(service: QualifiedService)
    | Built(descriptors: string, service: QualifiedService)

  datatype ServiceData = ServiceData(generation: nat, serviceSpec: Option<ServiceSpec>, loadBalancer: Option<Upstream>)

  /** What a spawned descriptor task has captured. */
  datatype Task = Task(generation: nat, serviceName: string, service: QualifiedService, source: string, loadBalancer: Upstream)

  datatype Store = Store(
    specGeneration: nat,
    rawServices: map<ObjectRef, Object>,
    refByGrpcService: map<string, set<ObjectRef>>,
    services: map<string, ServiceData>,
    tasks: map<nat, Task>)

  const EMPTY := Store(0, map[], map[], map[], map[])

  // ---- The operations, on values; `None` is a panic ----

  function UpdateServiceIfNewer(services: map<string, ServiceData>, name: string, data: ServiceData): map<string, ServiceData> {
    if name in services && !(services[name].generation < data.generation) then services
    else services[name := data]
  }

  function Tombstone(generation: nat): ServiceData { ServiceData(generation, None, None) }

  function TaskData(t: Task, descriptors: string): ServiceData {
    ServiceData(t.generation, Some(Built(descriptors, t.service)), Some(t.loadBalancer))
  }

  ghost function UpdateService(st: Store, name: string): Option<Store> {
    if name !in st.refByGrpcService then None
    else
      var g, refs := st.specGeneration, st.refByGrpcService[name];
      if refs == {} then
        Some(st.(specGeneration := g + 1, services := st.services[name := Tombstone(g)]))
      else if Elect(refs) !in st.rawServices then None
      else
        var spec := st.rawServices[Elect(refs)].spec;
        match Parse(spec.serviceName)
        case Err(_) => None
        case Ok(service) =>
          match spec.descriptorSetSource
          case Some(source) =>
            Some(st.(specGeneration := g + 1,
                     tasks := st.tasks[g := Task(g, spec.serviceName, service, source, spec.upstream)]))
          case None =>
            var data := ServiceData(g, Some(Passthrough(service)), Some(spec.upstream));
            Some(st.(specGeneration := g + 1,
                     services := UpdateServiceIfNewer(st.services, spec.serviceName, data)))
  }

  function RemoveNoUpdate(st: Store, ref: ObjectRef): Option<Store> {
    if ref !in st.rawServices then Some(st)
    else
      var name := st.rawServices[ref].spec.serviceName;
      if name !in st.refByGrpcService then None
      else Some(st.(rawServices := st.rawServices - {ref},
                    refByGrpcService := st.refByGrpcService[name := st.refByGrpcService[name] - {ref}]))
  }

  ghost function RemoveChange(st: Store, ref: ObjectRef): Option<Store> {
    if ref !in st.rawServices then Some(st)
    else match RemoveNoUpdate(st, ref)
      case None => None
      case Some(st') => UpdateService(st', st.rawServices[ref].spec.serviceName)
  }

  /** `apply` up to the call of `update_service`. */
  function Insert(st: Store, o: Object): Option<Store> {
    match RemoveNoUpdate(st, o.ref)
    case None => None
    case Some(st') =>
      var name := o.spec.serviceName;
      var refs := if name in st'.refByGrpcService then st'.refByGrpcService[name] else {};
      Some(st'.(rawServices := st'.rawServices[o.ref := o],
                refByGrpcService := st'.refByGrpcService[name := refs + {o.ref}]))
  }

  ghost function ApplyChange(st: Store, o: Object): Option<Store> {
    match Insert(st, o)
    case None => None
    case Some(st') => UpdateService(st', o.spec.serviceName)
  }

  function Complete(st: Store, g: nat, descriptors: string): Store
    requires g in st.tasks
  {
    var t := st.tasks[g];
    st.(services := UpdateServiceIfNewer(st.services, t.serviceName, TaskData(t, descriptors)), tasks := st.tasks - {g})
  }

  // ---- The inverse index ----

  /** Each index entry is exactly the references declaring its name, and every declared name has
      an entry. */
  ghost predicate Indexed(st: Store) {
    && (forall n :: n in st.refByGrpcService ==> st.refByGrpcService[n] == RefsOf(st.rawServices, n))
    && (forall r :: r in st.rawServices ==>
          st.rawServices[r].ref == r && st.rawServices[r].spec.serviceName in st.refByGrpcService)
  }

  ghost predicate AllDotted(objects: map<ObjectRef, Object>) {
    forall r :: r in objects ==> Dotted(objects[r].spec.serviceName)
  }

  lemma RemoveKeepsIndex(st: Store, ref: ObjectRef)
    requires Indexed(st)
    ensures RemoveNoUpdate(st, ref).Some? && Indexed(RemoveNoUpdate(st, ref).value)
    ensures RemoveNoUpdate(st, ref).value.rawServices == st.rawServices - {ref}
    ensures RemoveNoUpdate(st, ref).value.refByGrpcService.Keys == st.refByGrpcService.Keys
  {
    var st' := RemoveNoUpdate(st, ref).value;
    forall n | n in st'.refByGrpcService
      ensures st'.refByGrpcService[n] == RefsOf(st'.rawServices, n)
    {
      assert st.refByGrpcService[n] == RefsOf(st.rawServices, n);
    }
  }

  lemma InsertedRefs(raw: map<ObjectRef, Object>, o: Object, n: string)
    ensures RefsOf(raw[o.ref := o], n) == RefsOf(raw - {o.ref}, n) + if n == o.spec.serviceName then {o.ref} else {}
  {
  }

  lemma InsertKeepsIndex(st: Store, o: Object)
    requires Indexed(st)
    ensures Insert(st, o).Some? && Indexed(Insert(st, o).value)
    ensures Insert(st, o).value.rawServices == st.rawServices[o.ref := o]
    ensures o.spec.serviceName in Insert(st, o).value.refByGrpcService
  {
    RemoveKeepsIndex(st, o.ref);
    var mid, st' := RemoveNoUpdate(st, o.ref).value, Insert(st, o).value;
    forall n | n in st'.refByGrpcService
      ensures st'.refByGrpcService[n] == RefsOf(st'.rawServices, n)
    {
      InsertedRefs(st.rawServices, o, n);
      assert n in mid.refByGrpcService ==> mid.refByGrpcService[n] == RefsOf(mid.rawServices, n);
      assert n !in mid.refByGrpcService ==> RefsOf(mid.rawServices, n) == {};
    }
  }

  /** With a sound index and dotted names no unwrap of `update_service(name)` fails. It takes one
      generation, and writes no key of `services` but `name`. */
  lemma UpdateServiceEffect(st: Store, name: string)
    requires Indexed(st) && AllDotted(st.rawServices) && name in st.refByGrpcService
    ensures UpdateService(st, name).Some?
    ensures var st' := UpdateService(st, name).value;
            && st'.specGeneration == st.specGeneration + 1
            && st'.rawServices == st.rawServices && st'.refByGrpcService == st.refByGrpcService
            && (forall n :: n != name ==> (n in st.services <==> n in st'.services))
            && (forall n :: n != name && n in st.services ==> st'.services[n] == st.services[n])
  {
    var refs := st.refByGrpcService[name];
    if refs != {} {
      var o := st.rawServices[Elect(refs)];
      PrintParse(o.spec.serviceName);
    }
  }

  /** Exactly when the unwraps of `update_service` fail: some object declares the name, and the name
      has no dot. */
  lemma UpdateServicePanicsIff(st: Store, name: string)
    requires Indexed(st) && name in st.refByGrpcService
    ensures UpdateService(st, name).None? <==> RefsOf(st.rawServices, name) != {} && !Dotted(name)
  {
    var refs := st.refByGrpcService[name];
    assert refs == RefsOf(st.rawServices, name);
    if refs != {} {
      assert Elect(refs) in refs;
      PrintParse(name);
    }
  }

  /** The three outcomes of `update_service(name)`, by the object elected for the name: a
      tombstone, a spawned task, or a pass-through entry. */
  ghost predicate Updated(st: Store, name: string, elected: Option<Object>, st': Store) {
    var g := st.specGeneration;
    match elected
    case None => st' == st.(specGeneration := g + 1, services := st.services[name := Tombstone(g)])
    case Some(o) =>
      && o.spec.serviceName == name && Parse(name).Ok?
      && match o.spec.descriptorSetSource
         case Some(source) =>
           st' == st.(specGeneration := g + 1, tasks := st.tasks[g := Task(g, name, Parse(name).value, source, o.spec.upstream)])
         case None =>
           st' == st.(specGeneration := g + 1,
                      services := UpdateServiceIfNewer(st.services, name,
                        ServiceData(g, Some(Passthrough(Parse(name).value)), Some(o.spec.upstream))))
  }

  lemma UpdateServiceOutcome(st: Store, name: string)
    requires Indexed(st) && AllDotted(st.rawServices) && name in st.refByGrpcService
    ensures UpdateService(st, name).Some?
    ensures Updated(st, name, Elected(st.rawServices, name), UpdateService(st, name).value)
  {
    var refs := st.refByGrpcService[name];
    assert refs == RefsOf(st.rawServices, name);
    if refs != {} {
      assert Elect(refs) in refs;
      PrintParse(name);
    }
  }

  // ---- The same operations, in place ----

  /** The map shared between the config loop, its spawned tasks and the request path. */
  class ServiceConfigInner {
    var services: map<string, ServiceData>

    constructor ()
      ensures services == map[]
    {
      services := map[];
    }

    /** One atomic `compute`. */
    method UpdateIfNewer(name: string, data: ServiceData)
      modifies this
      ensures services == UpdateServiceIfNewer(old(services), name, data)
    {
      if name in services {
        if services[name].generation < data.generation {
          services := services[name := data];
        }
      } else {
        services := services[name := data];
      }
    }
  }

  class ServiceConfigState {
    var specGeneration: nat
    const config: ServiceConfigInner
    var rawServices: map<ObjectRef, Object>
    var refByGrpcService: map<string, set<ObjectRef>>
    var tasks: map<nat, Task>

    ghost function View(): Store
      reads this, config
    {
      Store(specGeneration, rawServices, refByGrpcService, config.services, tasks)
    }

    constructor ()
      ensures View() == EMPTY && fresh(config)
    {
      config := new ServiceConfigInner();
      specGeneration, rawServices, refByGrpcService, tasks := 0, map[], map[], map[];
    }

    method RemoveObjectNoUpdate(ref: ObjectRef) returns (previous: Option<Object>)
      requires Indexed(View())
      modifies this
      ensures RemoveNoUpdate(old(View()), ref) == Some(View()) && Indexed(View())
      ensures previous == if ref in old(rawServices) then Some(old(rawServices)[ref]) else None
    {
      RemoveKeepsIndex(View(), ref);
      if ref in rawServices {
        previous := Some(rawServices[ref]);
        var name := rawServices[ref].spec.serviceName;
        rawServices := rawServices - {ref};
        refByGrpcService := refByGrpcService[name := refByGrpcService[name] - {ref}];
      } else {
        previous := None;
      }
    }

    method RemoveObject(ref: ObjectRef)
      requires Indexed(View()) && AllDotted(rawServices)
      modifies this, config
      ensures RemoveChange(old(View()), ref) == Some(View())
      ensures Indexed(View()) && rawServices == old(rawServices) - {ref}
    {
      RemoveKeepsIndex(View(), ref);
      var previous := RemoveObjectNoUpdate(ref);
      if previous.Some? { Update(previous.value.spec.serviceName); }
    }

    method ApplyObject(o: Object)
      requires Indexed(View()) && AllDotted(rawServices) && Dotted(o.spec.serviceName)
      modifies this, config
      ensures ApplyChange(old(View()), o) == Some(View())
      ensures Indexed(View()) && rawServices == old(rawServices)[o.ref := o]
    {
      InsertKeepsIndex(View(), o);
      var _ := RemoveObjectNoUpdate(o.ref);
      var name := o.spec.serviceName;
      rawServices := rawServices[o.ref := o];
      var refs := if name in refByGrpcService then refByGrpcService[name] else {};
      refByGrpcService := refByGrpcService[name := refs + {o.ref}];
      assert Insert(old(View()), o) == Some(View());
      Update(name);
    }

    method Update(name: string)
      requires Indexed(View()) && AllDotted(rawServices) && name in refByGrpcService
      modifies this, config
      ensures UpdateService(old(View()), name) == Some(View())
      ensures Indexed(View()) && rawServices == old(rawServices)
    {
      var refs := refByGrpcService[name];
      var generation := specGeneration;
      specGeneration := specGeneration + 1;
      if refs == {} {
        config.services := config.services[name := Tombstone(generation)];
      } else {
        var ref := ElectIn(refs);
        ElectIs(ref, refs);
        var spec := rawServices[ref].spec;
        PrintParse(spec.serviceName);
        var service := Parse(spec.serviceName).value;
        match spec.descriptorSetSource {
          case Some(source) =>
            tasks := tasks[generation := Task(generation, spec.serviceName, service, source, spec.upstream)];
          case None =>
            config.UpdateIfNewer(spec.serviceName, ServiceData(generation, Some(Passthrough(service)), Some(spec.upstream)));
        }
      }
    }

    /** The rest of a spawned task once its descriptors are loaded. */
    method CompleteTask(g: nat, descriptors: string)
      requires g in tasks
      modifies this, config
      ensures View() == Complete(old(View()), g, descriptors)
    {
      var t := tasks[g];
      tasks := tasks - {g};
      config.UpdateIfNewer(t.serviceName, TaskData(t, descriptors));
    }
  }

  // ---- The request path ----

  /** `request_filter` answers 404 unless the entry has a load balancer. */
  predicate Routable(services: map<string, ServiceData>, name: string) {
    name in services && services[name].loadBalancer.Some?
  }
}
