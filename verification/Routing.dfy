/** Live reload and DNS discovery together: the strong references that tasks and service entries
    hold keep the discovery of every routable service going. */
module Routing {
  import opened Text
  import opened Resources
  import opened ResourceChange
  import opened ServiceStore
  import opened Pipeline
  import opened Convergence
  import D = Discovery

  /** `held[g]` is the handle that the `update_service` call of generation `g` got from
      `backends_for_hostname` and whose reference its task or its entry has not given up yet. */
  datatype System = System(reload: State, discovery: D.State, held: map<nat, nat>)

  const START := System(Pipeline.INITIAL, D.INITIAL, map[])

  function HostPortOf(u: Upstream): D.HostPort { D.HostPort(u.url, u.port) }

  /** A pending task or a service entry of generation `g` refers to the balancer of upstream `u`. */
  ghost predicate Refers(st: Store, g: nat, u: Upstream) {
    || (g in st.tasks && st.tasks[g].loadBalancer == u)
    || (exists n :: n in st.services && st.services[n].generation == g && st.services[n].loadBalancer == Some(u))
  }

  ghost function Holders(held: map<nat, nat>, i: nat): set<nat> { set g | g in held && held[g] == i }

  datatype Action =
    | Reload(step: Pipeline.Action)
    | Discover(move: D.Action)
    | Release(generation: nat)

  /** The hash map reclaims a replaced entry, and a finished task its captures, at some later time.
      Other users of discovery drop only references of their own. */
  ghost predicate Enabled(s: System, a: Action) {
    match a
    case Reload(step) => Pipeline.Enabled(s.reload, step)
    case Discover(move) =>
      && D.Enabled(s.discovery, move)
      && (move.Drop? ==> s.discovery.handles[move.handle].external > |Holders(s.held, move.handle)|)
    case Release(g) =>
      && g in s.held && (forall u :: !Refers(s.reload.store, g, u))
      && D.Enabled(s.discovery, D.Drop(s.held[g]))
  }

  /** `update_service` asks for the handle of the object it elected, if there is one. */
  ghost function Acquired(s: State, s': State): Option<Upstream> {
    if |s'.ledger.issued| == |s.ledger.issued| + 1 && s'.ledger.issued[|s.ledger.issued|].obj.Some?
    then Some(s'.ledger.issued[|s.ledger.issued|].obj.value.spec.upstream) else None
  }

  ghost function AfterReload(s: System, r: State): System {
    match Acquired(s.reload, r)
    case None => s.(reload := r)
    case Some(u) =>
      var d, hp := D.RequestHandle(s.discovery, HostPortOf(u)), HostPortOf(u);
      s.(reload := r, discovery := d,
         held := if hp in d.registry then s.held[|s.reload.ledger.issued| := d.registry[hp]] else s.held)
  }

  ghost function Step(s: System, a: Action): System
    requires Enabled(s, a)
  {
    match a
    case Reload(step) => AfterReload(s, Pipeline.Step(s.reload, step))
    case Discover(move) => s.(discovery := D.Step(s.discovery, move))
    case Release(g) => s.(discovery := D.Step(s.discovery, D.Drop(s.held[g])), held := s.held - {g})
  }

  ghost predicate LegalRun(world: World, s: System, actions: seq<Action>)
    decreases |actions|
  {
    actions == [] ||
    (&& Enabled(s, actions[0]) && (actions[0].Reload? ==> Trusted(world, actions[0].step))
     && LegalRun(world, Step(s, actions[0]), actions[1..]))
  }

  ghost function Run(world: World, s: System, actions: seq<Action>): System
    requires LegalRun(world, s, actions)
    decreases |actions|
  {
    if actions == [] then s else Run(world, Step(s, actions[0]), actions[1..])
  }

  // ---- References are only created by the call that acquires them ----

  /** The call of generation `g` is pending, or its install is the current entry of its name. */
  ghost predicate Standing(st: Store, l: Ledger, g: nat)
    requires g < |l.issued|
  {
    || g in st.tasks
    || (g in l.installed && l.issued[g].name in st.services && st.services[l.issued[g].name].generation == g)
  }

  lemma RefersByIssue(st: Store, l: Ledger, g: nat, u: Upstream)
    requires LedgerInv(st, l) && Refers(st, g, u)
    ensures g < |l.issued| && l.issued[g].obj.Some? && l.issued[g].obj.value.spec.upstream == u
    ensures Standing(st, l, g)
  {
    if g in st.tasks && st.tasks[g].loadBalancer == u {
      assert TaskMatches(g, l.issued[g], st.tasks[g]);
    } else {
      var n :| n in st.services && st.services[n].generation == g && st.services[n].loadBalancer == Some(u);
      assert Offers(l.installed[g], g, l.issued[g], LoadedFor(l, g));
    }
  }

  lemma IssueRefers(st: Store, l: Ledger, g: nat)
    requires LedgerInv(st, l) && g < |l.issued| && l.issued[g].obj.Some?
    requires Standing(st, l, g)
    ensures Refers(st, g, l.issued[g].obj.value.spec.upstream)
  {
    if g in st.tasks {
      assert TaskMatches(g, l.issued[g], st.tasks[g]);
    } else {
      var n := l.issued[g].name;
      assert Offers(l.installed[g], g, l.issued[g], LoadedFor(l, g));
      assert st.services[n] == l.installed[g];
    }
  }

  lemma StandingBefore(s: State, s': State, g: nat)
    requires Partition(s.store.tasks, s.ledger) && NewestInstalled(s.store.services, s.ledger)
    requires Partition(s'.store.tasks, s'.ledger) && NewestInstalled(s'.store.services, s'.ledger)
    requires LedgerGrows(s.ledger, s'.ledger) && g < |s.ledger.issued| && Standing(s'.store, s'.ledger, g)
    ensures Standing(s.store, s.ledger, g)
  {
    assert s'.ledger.issued[g] == s.ledger.issued[g];
    assert g !in s'.ledger.failed && g !in s.ledger.failed;
    if g !in s.store.tasks {
      assert g in s.ledger.installed;
      GrowthIsLater(s, s');
    }
  }

  lemma OldReferenceWasThere(s: State, s': State, g: nat, u: Upstream)
    requires LedgerInv(s.store, s.ledger) && LedgerInv(s'.store, s'.ledger) && LedgerGrows(s.ledger, s'.ledger)
    requires Refers(s'.store, g, u) && g < |s.ledger.issued|
    ensures Refers(s.store, g, u)
  {
    RefersByIssue(s'.store, s'.ledger, g, u);
    StandingBefore(s, s', g);
    IssueRefers(s.store, s.ledger, g);
  }

  // ---- The invariant ----

  ghost predicate Backed(s: System, g: nat, u: Upstream) {
    && g in s.held && s.held[g] < |s.discovery.handles|
    && s.discovery.handles[s.held[g]].hostPort == HostPortOf(u)
  }

  ghost predicate Counted(d: D.State, held: map<nat, nat>) {
    && (forall g :: g in held ==> held[g] < |d.handles|)
    && (forall i :: 0 <= i < |d.handles| ==> d.handles[i].external >= |Holders(held, i)|)
  }

  ghost predicate AllBacked(s: System) {
    forall g: nat, u :: Refers(s.reload.store, g, u) ==> Backed(s, g, u)
  }

  ghost predicate Tallied(s: System) {
    && D.FeederInv(s.discovery) && Counted(s.discovery, s.held)
    && forall g :: g in s.held ==> g < |s.reload.ledger.issued|
  }

  ghost predicate Inv(world: World, s: System) {
    Pipeline.Inv(world, s.reload) && Tallied(s) && AllBacked(s)
  }

  lemma HoldersAdd(held: map<nat, nat>, g: nat, i: nat, j: nat)
    requires g !in held
    ensures |Holders(held[g := i], j)| == |Holders(held, j)| + if j == i then 1 else 0
  {
    if j == i {
      assert Holders(held[g := i], j) == Holders(held, j) + {g};
    } else {
      assert Holders(held[g := i], j) == Holders(held, j);
    }
  }

  lemma HoldersRemove(held: map<nat, nat>, g: nat, j: nat)
    requires g in held
    ensures |Holders(held - {g}, j)| == |Holders(held, j)| - if j == held[g] then 1 else 0
  {
    assert Holders(held - {g}, j) == Holders(held, j) - {g};
  }

  lemma AcquireCounts(d: D.State, held: map<nat, nat>, g: nat, hp: D.HostPort)
    requires Counted(d, held) && D.FeederInv(d) && g !in held
    ensures var d' := D.RequestHandle(d, hp);
            && hp in d'.registry && d'.registry[hp] < |d'.handles| && d'.handles[d'.registry[hp]].hostPort == hp
            && Counted(d', held[g := d'.registry[hp]])
  {
    var d' := D.RequestHandle(d, hp);
    var i := d'.registry[hp];
    if i == |d.handles| { assert Holders(held, i) == {}; }
    forall j | 0 <= j < |d'.handles| ensures d'.handles[j].external >= |Holders(held[g := i], j)| {
      HoldersAdd(held, g, i, j);
    }
  }

  lemma AcquireFrame(d: D.State, hp: D.HostPort)
    requires D.FeederInv(d)
    ensures var d' := D.RequestHandle(d, hp);
            && D.FeederInv(d') && |d.handles| <= |d'.handles|
            && (forall i :: 0 <= i < |d.handles| ==> d'.handles[i].hostPort == d.handles[i].hostPort)
  {
    D.StepKeepsFeederInv(d, D.Request(hp));
    D.StepFrame(d, D.Request(hp));
  }

  /** What an acquisition changes on the discovery side. */
  lemma ReloadTallied(s: System, r: State)
    requires Tallied(s) && |s.reload.ledger.issued| <= |r.ledger.issued|
    ensures var s' := AfterReload(s, r);
            && Tallied(s')
            && (forall g :: g in s.held ==> g in s'.held && s'.held[g] == s.held[g])
            && |s.discovery.handles| <= |s'.discovery.handles|
            && (forall i :: 0 <= i < |s.discovery.handles| ==> s'.discovery.handles[i].hostPort == s.discovery.handles[i].hostPort)
            && (Acquired(s.reload, r).Some? ==> Backed(s', |s.reload.ledger.issued|, Acquired(s.reload, r).value))
  {
    var acquired := Acquired(s.reload, r);
    if acquired.Some? {
      AcquireCounts(s.discovery, s.held, |s.reload.ledger.issued|, HostPortOf(acquired.value));
      AcquireFrame(s.discovery, HostPortOf(acquired.value));
    }
  }

  lemma ReloadBacked(s: System, r: State, g: nat, u: Upstream)
    requires LedgerInv(s.reload.store, s.reload.ledger) && LedgerInv(r.store, r.ledger) && LedgerGrows(s.reload.ledger, r.ledger)
    requires Tallied(s) && AllBacked(s) && Refers(r.store, g, u)
    ensures Backed(AfterReload(s, r), g, u)
  {
    ReloadTallied(s, r);
    RefersByIssue(r.store, r.ledger, g, u);
    if g < |s.reload.ledger.issued| {
      OldReferenceWasThere(s.reload, r, g, u);
      assert Backed(s, g, u);
    }
  }

  lemma ReloadKeepsInv(world: World, s: System, step: Pipeline.Action)
    requires Inv(world, s) && Enabled(s, Reload(step)) && Trusted(world, step)
    ensures Inv(world, Step(s, Reload(step)))
  {
    var r := Pipeline.Step(s.reload, step);
    Pipeline.StepKeepsInv(world, s.reload, step);
    StepGrowsLedger(s.reload, step);
    ReloadTallied(s, r);
    forall g: nat, u | Refers(r.store, g, u) ensures Backed(AfterReload(s, r), g, u) { ReloadBacked(s, r, g, u); }
  }

  lemma ExternalAfter(d: D.State, move: D.Action, i: nat)
    requires D.Enabled(d, move) && i < |d.handles| && i < |D.Step(d, move).handles|
    ensures D.Step(d, move).handles[i].external >= d.handles[i].external - if move == D.Drop(i) then 1 else 0
  {
  }

  lemma DiscoverKeepsInv(world: World, s: System, move: D.Action)
    requires Inv(world, s) && Enabled(s, Discover(move))
    ensures Inv(world, Step(s, Discover(move)))
  {
    var d, d' := s.discovery, D.Step(s.discovery, move);
    D.StepKeepsFeederInv(d, move);
    D.StepFrame(d, move);
    forall i | 0 <= i < |d'.handles| ensures d'.handles[i].external >= |Holders(s.held, i)| {
      if i < |d.handles| { ExternalAfter(d, move, i); } else { assert Holders(s.held, i) == {}; }
    }
    forall g: nat, u | Refers(s.reload.store, g, u) ensures Backed(Step(s, Discover(move)), g, u) { assert Backed(s, g, u); }
  }

  lemma ReleaseKeepsInv(world: World, s: System, g: nat)
    requires Inv(world, s) && Enabled(s, Release(g))
    ensures Inv(world, Step(s, Release(g)))
  {
    var s' := Step(s, Release(g));
    D.StepKeepsFeederInv(s.discovery, D.Drop(s.held[g]));
    forall i | 0 <= i < |s'.discovery.handles| ensures s'.discovery.handles[i].external >= |Holders(s'.held, i)| {
      HoldersRemove(s.held, g, i);
    }
    forall h: nat, u | Refers(s'.reload.store, h, u) ensures Backed(s', h, u) { assert Backed(s, h, u); }
  }

  lemma {:induction false} RunKeepsInv(world: World, s: System, actions: seq<Action>)
    requires Inv(world, s) && LegalRun(world, s, actions)
    ensures Inv(world, Run(world, s, actions))
    decreases |actions|
  {
    if actions != [] {
      match actions[0] {
        case Reload(step) => ReloadKeepsInv(world, s, step);
        case Discover(move) => DiscoverKeepsInv(world, s, move);
        case Release(g) => ReleaseKeepsInv(world, s, g);
      }
      RunKeepsInv(world, Step(s, actions[0]), actions[1..]);
    }
  }

  lemma StartInv(world: World)
    ensures Inv(world, START)
  {
    Pipeline.InitialInv(world);
  }

  /** In every reachable state of both subsystems, a routable service's balancer belongs to a live
      handle for its upstream's host and port, the only live one for that host, and that handle has
      its start command queued or its own refresh loop running. */
  lemma RoutableServicesAreFed(world: World, actions: seq<Action>, n: string)
    requires LegalRun(world, START, actions)
    ensures var s := Run(world, START, actions);
            Routable(s.reload.store.services, n) ==>
              var data := s.reload.store.services[n];
              && Backed(s, data.generation, data.loadBalancer.value)
              && var i, u := s.held[data.generation], data.loadBalancer.value;
                 && D.Live(s.discovery, i) && (i in s.discovery.commands || i in s.discovery.loops)
                 && s.discovery.handles[i].hostPort == D.HostPort(u.url, u.port)
                 && (forall j: nat :: D.Live(s.discovery, j) && s.discovery.handles[j].hostPort == s.discovery.handles[i].hostPort ==> j == i)
  {
    StartInv(world);
    RunKeepsInv(world, START, actions);
    var s := Run(world, START, actions);
    if Routable(s.reload.store.services, n) {
      var data := s.reload.store.services[n];
      assert Refers(s.reload.store, data.generation, data.loadBalancer.value);
      assert Backed(s, data.generation, data.loadBalancer.value);
      var i := s.held[data.generation];
      assert data.generation in Holders(s.held, i);
      assert s.discovery.handles[i].external > 0;
      assert D.Live(s.discovery, i);
    }
  }
}
