/** DNS discovery (grcache-proxy/src/discovery/dns.rs): a registry of weak references under a
    mutex, a command queue, and one refresh loop per command, interleaved in every way. */
module Discovery {
  import opened Text

  datatype HostPort = HostPort(host: string, port: nat)

  /** Resolved addresses; each carries the port of its loop and weight 1. */
  type Backends = set<string>

  /** A `ServiceBackendsHandle` with its two watch channels. `external` counts the strong
      references outside the loops; `answer` remembers the last DNS answer for it. */
  datatype Handle = Handle(
    hostPort: HostPort,
    external: nat,
    published: Backends,
    roundRobin: Backends,
    consistent: Backends,
    ready: bool,
    answer: Option<Backends>)

  function NewHandle(hp: HostPort): Handle { Handle(hp, 1, {}, {}, {}, false, None) }

  datatype Pc = Starting | Resolving | Upgrading | UpdatingRoundRobin | UpdatingConsistent | Checking | Announcing

  /** A running `dns_discovery_loop`. It owns the senders of the handle it was started for, and
      the weak reference it read from the registry, which may be another handle's. */
  datatype Loop = Loop(weak: Option<nat>, pc: Pc)

  predicate Holding(l: Loop) { l.pc == UpdatingRoundRobin || l.pc == UpdatingConsistent }

  /** Handles are numbered in creation order; a command and a loop carry the number of the handle
      they were created for. */
  datatype State = State(
    handles: seq<Handle>,
    registry: map<HostPort, nat>,
    commands: seq<nat>,
    loops: map<nat, Loop>,
    crashed: bool)

  const INITIAL := State([], map[], [], map[], false)

  /** Some strong reference to handle `i` is left: `upgrade` succeeds, `strong_count` is not 0. */
  predicate Live(s: State, i: nat) {
    i < |s.handles| && (s.handles[i].external > 0 || exists l | l in s.loops :: Holding(s.loops[l]) && s.loops[l].weak == Some(i))
  }

  predicate WeakLive(s: State, l: nat)
    requires l in s.loops
  {
    s.loops[l].weak.Some? && Live(s, s.loops[l].weak.value)
  }

  datatype Action =
    | Request(hp: HostPort)
    | Clone(handle: nat)
    | Drop(handle: nat)
    | Dispatch
    | ReadRegistry(loop: nat)
    | LookupFailed(loop: nat)
    | Answered(loop: nat, backends: Backends)
    | Upgrade(loop: nat)
    | UpdateRoundRobin(loop: nat)
    | UpdateConsistent(loop: nat)
    | Check(loop: nat)
    | Announce(loop: nat, delivered: bool)

  predicate At(s: State, l: nat, pc: Pc) {
    l in s.loops && s.loops[l].pc == pc && l < |s.handles| && (s.loops[l].weak.Some? ==> s.loops[l].weak.value < |s.handles|)
  }

  /** A ready signal is delivered at least while a receiver exists, that is, while its handle is
      live. */
  predicate Enabled(s: State, a: Action) {
    && !s.crashed
    && match a
       case Request(_) => true
       case Clone(i) => i < |s.handles| && s.handles[i].external > 0
       case Drop(i) => i < |s.handles| && s.handles[i].external > 0
       case Dispatch => s.commands != []
       case ReadRegistry(l) => At(s, l, Starting)
       case LookupFailed(l) => At(s, l, Resolving)
       case Answered(l, _) => At(s, l, Resolving)
       case Upgrade(l) => At(s, l, Upgrading)
       case UpdateRoundRobin(l) => At(s, l, UpdatingRoundRobin) && s.loops[l].weak.Some?
       case UpdateConsistent(l) => At(s, l, UpdatingConsistent) && s.loops[l].weak.Some?
       case Check(l) => At(s, l, Checking)
       case Announce(l, delivered) => At(s, l, Announcing) && (Live(s, l) ==> delivered)
  }

  function WithHandle(s: State, i: nat, h: Handle): State
    requires i < |s.handles|
  {
    s.(handles := s.handles[i := h])
  }

  function WithPc(s: State, l: nat, pc: Pc): State
    requires l in s.loops
  {
    s.(loops := s.loops[l := s.loops[l].(pc := pc)])
  }

  function Exit(s: State, l: nat): State { s.(loops := s.loops - {l}) }

  /** `backends_for_hostname`: the registered handle if it can still be upgraded, and otherwise a
      new one, registered and announced to the service in one critical section. */
  function RequestHandle(s: State, hp: HostPort): State {
    if hp in s.registry && Live(s, s.registry[hp]) then
      var i := s.registry[hp];
      WithHandle(s, i, s.handles[i].(external := s.handles[i].external + 1))
    else
      var i := |s.handles|;
      s.(handles := s.handles + [NewHandle(hp)], registry := s.registry[hp := i], commands := s.commands + [i])
  }

  function Step(s: State, a: Action): State
    requires Enabled(s, a)
  {
    match a
    case Request(hp) => RequestHandle(s, hp)
    case Clone(i) => WithHandle(s, i, s.handles[i].(external := s.handles[i].external + 1))
    case Drop(i) => WithHandle(s, i, s.handles[i].(external := s.handles[i].external - 1))
    case Dispatch => s.(commands := s.commands[1..], loops := s.loops[s.commands[0] := Loop(None, Starting)])
    case ReadRegistry(l) =>
      var hp := s.handles[l].hostPort;
      if hp !in s.registry then s.(crashed := true)
      else s.(loops := s.loops[l := Loop(Some(s.registry[hp]), Resolving)])
    case LookupFailed(l) => if WeakLive(s, l) then s else Exit(s, l)
    case Answered(l, backends) =>
      var h := s.handles[l];
      WithPc(WithHandle(s, l, h.(published := backends, answer := Some(backends))), l,
             if h.published != backends then Upgrading else Checking)
    case Upgrade(l) => WithPc(s, l, if WeakLive(s, l) then UpdatingRoundRobin else Checking)
    case UpdateRoundRobin(l) =>
      var w := s.loops[l].weak.value;
      WithPc(WithHandle(s, w, s.handles[w].(roundRobin := s.handles[w].published)), l, UpdatingConsistent)
    case UpdateConsistent(l) =>
      var w := s.loops[l].weak.value;
      WithPc(WithHandle(s, w, s.handles[w].(consistent := s.handles[w].published)), l, Checking)
    case Check(l) => if WeakLive(s, l) then WithPc(s, l, Announcing) else Exit(s, l)
    case Announce(l, delivered) =>
      WithPc(WithHandle(s, l, s.handles[l].(ready := s.handles[l].ready || delivered)), l, Resolving)
  }

  predicate LegalRun(s: State, actions: seq<Action>)
    decreases |actions|
  {
    actions == [] || (Enabled(s, actions[0]) && LegalRun(Step(s, actions[0]), actions[1..]))
  }

  function Run(s: State, actions: seq<Action>): State
    requires LegalRun(s, actions)
    decreases |actions|
  {
    if actions == [] then s else Run(Step(s, actions[0]), actions[1..])
  }

  // ---- In place ----

  /** The state shared by all clones of `Handle` and by the service. */
  class Service {
    var handles: seq<Handle>
    var serviceBackends: map<HostPort, nat>
    var commands: seq<nat>
    var loops: map<nat, Loop>

    ghost function View(): State
      reads this
    {
      State(handles, serviceBackends, commands, loops, false)
    }

    constructor ()
      ensures View() == INITIAL
    {
      handles, serviceBackends, commands, loops := [], map[], [], map[];
    }

    method StrongCountIsPositive(i: nat) returns (live: bool)
      ensures live == Live(View(), i)
    {
      live := i < |handles| && (handles[i].external > 0 || exists l | l in loops :: Holding(loops[l]) && loops[l].weak == Some(i));
    }

    /** The returned handle is live and is the one a live reference to the host already shares, so
        asking for a host that is in use never starts a second discovery. */
    method BackendsForHostname(hp: HostPort) returns (i: nat)
      requires FeederInv(View())
      modifies this
      ensures View() == RequestHandle(old(View()), hp) && FeederInv(View())
      ensures i < |handles| && handles[i].external > 0 && handles[i].hostPort == hp
      ensures forall j: nat :: Live(old(View()), j) && old(handles)[j].hostPort == hp ==> i == j && commands == old(commands)
    {
      StepKeepsFeederInv(View(), Request(hp));
      var live := false;
      if hp in serviceBackends { live := StrongCountIsPositive(serviceBackends[hp]); }
      if live {
        i := serviceBackends[hp];
        handles := handles[i := handles[i].(external := handles[i].external + 1)];
      } else {
        i := |handles|;
        handles := handles + [NewHandle(hp)];
        serviceBackends := serviceBackends[hp := i];
        commands := commands + [i];
      }
    }

    /** One turn of the command loop of `Service::start`. */
    method DispatchCommand()
      requires commands != [] && FeederInv(View())
      modifies this
      ensures View() == Step(old(View()), Dispatch) && FeederInv(View())
    {
      StepKeepsFeederInv(View(), Dispatch);
      loops := loops[commands[0] := Loop(None, Starting)];
      commands := commands[1..];
    }
  }

  // ---- The invariant ----

  ghost predicate RegistryShape(s: State) {
    && (forall hp :: hp in s.registry ==> s.registry[hp] < |s.handles| && s.handles[s.registry[hp]].hostPort == hp)
    && (forall i :: 0 <= i < |s.handles| ==> s.handles[i].hostPort in s.registry)
  }

  /** A live handle is the one registered for its host. */
  ghost predicate Registered(s: State) {
    RegistryShape(s) && forall i: nat :: Live(s, i) ==> s.registry[s.handles[i].hostPort] == i
  }

  /** Each handle's one command is queued, or its loop runs, or that loop has exited. */
  ghost predicate CommandsSound(s: State) {
    && (forall k :: 0 <= k < |s.commands| ==> s.commands[k] < |s.handles| && s.commands[k] !in s.loops)
    && (forall j, k :: 0 <= j < k < |s.commands| ==> s.commands[j] != s.commands[k])
  }

  ghost predicate LoopShape(s: State, l: nat) {
    && l in s.loops && l < |s.handles|
    && match s.loops[l].weak
       case None => s.loops[l].pc == Starting
       case Some(w) =>
         s.loops[l].pc != Starting && w < |s.handles| && s.handles[w].hostPort == s.handles[l].hostPort
  }

  /** A loop whose own handle is live has captured that handle's weak reference. */
  ghost predicate LoopSound(s: State, l: nat) {
    && LoopShape(s, l)
    && (Live(s, l) && s.loops[l].weak.Some? ==> s.loops[l].weak == Some(l))
  }

  ghost predicate Fed(s: State, i: nat) { i in s.commands || i in s.loops }

  ghost predicate FeederInv(s: State) {
    && !s.crashed && Registered(s) && CommandsSound(s)
    && (forall l :: l in s.loops ==> LoopSound(s, l))
    && (forall i: nat :: Live(s, i) ==> Fed(s, i))
  }

  lemma HolderWasThere(s: State, a: Action, l: nat, i: nat)
    requires Enabled(s, a) && i < |s.handles|
    requires l in Step(s, a).loops && Holding(Step(s, a).loops[l]) && Step(s, a).loops[l].weak == Some(i)
    ensures Live(s, i)
  {
    if l in s.loops && Holding(s.loops[l]) && s.loops[l].weak == Some(i) {
    } else {
      assert a == Upgrade(l) && WeakLive(s, l);
    }
  }

  lemma ReferenceWasThere(s: State, a: Action, i: nat)
    requires Enabled(s, a) && i < |s.handles| && i < |Step(s, a).handles| && Step(s, a).handles[i].external > 0
    ensures Live(s, i)
  {
  }

  /** Only a request for the host of a live registered handle, a clone, or the upgrade of a live
      weak reference adds strong references, so a dead handle stays dead. */
  lemma DeadStaysDead(s: State, a: Action, i: nat)
    requires Enabled(s, a) && i < |s.handles| && Live(Step(s, a), i)
    ensures Live(s, i)
  {
    var s' := Step(s, a);
    if s'.handles[i].external > 0 {
      ReferenceWasThere(s, a, i);
    } else {
      var l :| l in s'.loops && Holding(s'.loops[l]) && s'.loops[l].weak == Some(i);
      HolderWasThere(s, a, l, i);
    }
  }

  lemma StepFrame(s: State, a: Action)
    requires Enabled(s, a)
    ensures var s' := Step(s, a);
            && |s.handles| <= |s'.handles| <= |s.handles| + 1
            && (forall i :: 0 <= i < |s.handles| ==> s'.handles[i].hostPort == s.handles[i].hostPort)
            && (|s'.handles| > |s.handles| ==>
                  && a.Request? && s'.registry == s.registry[a.hp := |s.handles|]
                  && !(a.hp in s.registry && Live(s, s.registry[a.hp])) && s'.handles[|s.handles|].hostPort == a.hp)
            && (|s'.handles| == |s.handles| ==> s'.registry == s.registry)
  {
  }

  lemma StepKeepsRegistered(s: State, a: Action)
    requires FeederInv(s) && Enabled(s, a)
    ensures Registered(Step(s, a)) && !Step(s, a).crashed
  {
    var s' := Step(s, a);
    StepFrame(s, a);
    forall i: nat | Live(s', i) ensures s'.registry[s'.handles[i].hostPort] == i {
      if i < |s.handles| { DeadStaysDead(s, a, i); }
    }
  }

  /** A loop exits only when the handle it watches is dead, so never while its own is live. */
  lemma LiveLoopStays(s: State, a: Action, i: nat)
    requires FeederInv(s) && Enabled(s, a) && Live(s, i) && i in s.loops
    ensures i in Step(s, a).loops
  {
    assert LoopSound(s, i);
  }

  /** A loop starts by a dispatch, reads the registry once, and keeps its weak reference then. */
  lemma LoopAfter(s: State, a: Action, l: nat)
    requires Enabled(s, a) && l in Step(s, a).loops
    ensures var after := Step(s, a).loops[l];
            || (a.Dispatch? && l == s.commands[0] && after == Loop(None, Starting))
            || (a == ReadRegistry(l) && l < |s.handles| && s.handles[l].hostPort !in s.registry && Step(s, a).crashed)
            || (a == ReadRegistry(l) && l < |s.handles| && s.handles[l].hostPort in s.registry
                && after == Loop(Some(s.registry[s.handles[l].hostPort]), Resolving))
            || (l in s.loops && after.weak == s.loops[l].weak && (after.pc == Starting <==> s.loops[l].pc == Starting))
  {
  }

  lemma StepKeepsLoopShape(s: State, a: Action, l: nat)
    requires Enabled(s, a) && RegistryShape(s) && CommandsSound(s) && l in Step(s, a).loops
    requires l in s.loops ==> LoopShape(s, l)
    ensures LoopShape(Step(s, a), l)
  {
    StepFrame(s, a);
    LoopAfter(s, a, l);
  }

  lemma StepKeepsLoop(s: State, a: Action, l: nat)
    requires FeederInv(s) && Enabled(s, a) && l in Step(s, a).loops
    ensures LoopSound(Step(s, a), l)
  {
    var s' := Step(s, a);
    if l in s.loops { assert LoopSound(s, l); }
    StepKeepsLoopShape(s, a, l);
    if Live(s', l) && s'.loops[l].weak.Some? {
      LoopAfter(s, a, l);
      assert l < |s.handles|;
      DeadStaysDead(s, a, l);
    }
  }

  lemma StepKeepsFed(s: State, a: Action, i: nat)
    requires FeederInv(s) && Enabled(s, a) && Live(Step(s, a), i)
    ensures Fed(Step(s, a), i)
  {
    var s' := Step(s, a);
    StepFrame(s, a);
    if i < |s.handles| {
      DeadStaysDead(s, a, i);
      assert Fed(s, i);
      if i in s.loops { LiveLoopStays(s, a, i); }
      if i in s.commands && a.Dispatch? {
        assert s.commands == [s.commands[0]] + s.commands[1..];
      }
    } else {
      assert s'.commands[|s.commands|] == i;
    }
  }

  lemma StepKeepsCommands(s: State, a: Action)
    requires Enabled(s, a) && CommandsSound(s) && forall l :: l in s.loops ==> l < |s.handles|
    ensures CommandsSound(Step(s, a))
  {
    StepFrame(s, a);
  }

  lemma StepKeepsFeederInv(s: State, a: Action)
    requires FeederInv(s) && Enabled(s, a)
    ensures FeederInv(Step(s, a))
  {
    var s' := Step(s, a);
    StepKeepsRegistered(s, a);
    forall l | l in s'.loops ensures LoopSound(s', l) { StepKeepsLoop(s, a, l); }
    forall i: nat | Live(s', i) ensures Fed(s', i) { StepKeepsFed(s, a, i); }
    assert forall l :: l in s.loops ==> LoopSound(s, l);
    StepKeepsCommands(s, a);
  }

  // ---- What the watch channels and balancers hold ----

  ghost predicate InWindow(s: State, i: nat) {
    i in s.loops && (s.loops[i].pc == Upgrading || Holding(s.loops[i]))
  }

  /** The published set is the last DNS answer, and ready means there was one. */
  ghost predicate AnswerSound(s: State, i: nat)
    requires i < |s.handles|
  {
    var h := s.handles[i];
    && h.published == (if h.answer.Some? then h.answer.value else {})
    && (h.ready ==> h.answer.Some?)
    && (i in s.loops && s.loops[i].pc != Starting && s.loops[i].pc != Resolving ==> h.answer.Some?)
  }

  /** Outside the window between a send and the two balancer updates, a live handle's balancers
      equal the published set. */
  ghost predicate BalancersSound(s: State, i: nat)
    requires i < |s.handles|
  {
    var h := s.handles[i];
    && (Live(s, i) && !InWindow(s, i) ==> h.roundRobin == h.published && h.consistent == h.published)
    && (Live(s, i) && i in s.loops && s.loops[i].pc == UpdatingConsistent ==> h.roundRobin == h.published)
  }

  /** A live handle that has an answer is ready, or its loop is still on its way to say so. */
  ghost predicate ReadySound(s: State, i: nat)
    requires i < |s.handles|
  {
    Live(s, i) && s.handles[i].answer.Some? && !s.handles[i].ready ==>
      i in s.loops && s.loops[i].pc != Starting && s.loops[i].pc != Resolving
  }

  ghost predicate HandleSound(s: State, i: nat)
    requires i < |s.handles|
  {
    AnswerSound(s, i) && BalancersSound(s, i) && ReadySound(s, i)
  }

  ghost predicate Inv(s: State) {
    FeederInv(s) && forall i :: 0 <= i < |s.handles| ==> HandleSound(s, i)
  }

  lemma StepKeepsAnswer(s: State, a: Action, i: nat)
    requires Enabled(s, a) && i < |Step(s, a).handles|
    requires i < |s.handles| ==> AnswerSound(s, i)
    requires i == |s.handles| ==> i !in s.loops
    ensures AnswerSound(Step(s, a), i)
  {
  }

  /** `a` leaves handle `i` and its loop as far along as they were. */
  ghost predicate BalancersStep(s: State, a: Action, i: nat)
    requires Enabled(s, a) && i < |s.handles| <= |Step(s, a).handles|
  {
    var h, h', s' := s.handles[i], Step(s, a).handles[i], Step(s, a);
    var settled, settled' := !InWindow(s, i), !InWindow(s', i);
    var half, half' := i in s.loops && s.loops[i].pc == UpdatingConsistent, i in s'.loops && s'.loops[i].pc == UpdatingConsistent;
    && ((settled ==> h.roundRobin == h.published && h.consistent == h.published) && (half ==> h.roundRobin == h.published) ==>
          && (settled' ==> h'.roundRobin == h'.published && h'.consistent == h'.published)
          && (half' ==> h'.roundRobin == h'.published))
  }

  lemma StepOnBalancers(s: State, a: Action, i: nat)
    requires Enabled(s, a) && i < |s.handles| <= |Step(s, a).handles| && Live(s, i)
    requires i in s.loops ==> LoopSound(s, i)
    requires CommandsSound(s)
    ensures BalancersStep(s, a, i)
  {
  }

  lemma StepKeepsBalancers(s: State, a: Action, i: nat)
    requires Inv(s) && Enabled(s, a) && i < |Step(s, a).handles|
    ensures BalancersSound(Step(s, a), i)
  {
    var s' := Step(s, a);
    StepFrame(s, a);
    if i < |s.handles| {
      if Live(s', i) {
        DeadStaysDead(s, a, i);
        assert i in s.loops ==> LoopSound(s, i);
        StepOnBalancers(s, a, i);
        assert HandleSound(s, i);
      }
    } else {
      assert i in s.loops ==> LoopShape(s, i);
      assert i !in s'.loops;
    }
  }

  lemma StepOnReady(s: State, a: Action, i: nat)
    requires Enabled(s, a) && i < |s.handles| <= |Step(s, a).handles| && Live(s, i) && ReadySound(s, i)
    requires i in s.loops ==> LoopSound(s, i)
    requires CommandsSound(s)
    ensures var h' := Step(s, a).handles[i];
            h'.answer.Some? && !h'.ready ==>
              i in Step(s, a).loops && Step(s, a).loops[i].pc != Starting && Step(s, a).loops[i].pc != Resolving
  {
  }

  lemma StepKeepsReady(s: State, a: Action, i: nat)
    requires Inv(s) && Enabled(s, a) && i < |Step(s, a).handles|
    ensures ReadySound(Step(s, a), i)
  {
    StepFrame(s, a);
    if i < |s.handles| && Live(Step(s, a), i) {
      DeadStaysDead(s, a, i);
      assert i in s.loops ==> LoopSound(s, i);
      assert HandleSound(s, i);
      StepOnReady(s, a, i);
    }
  }

  lemma StepKeepsInv(s: State, a: Action)
    requires Inv(s) && Enabled(s, a)
    ensures Inv(Step(s, a))
  {
    StepKeepsFeederInv(s, a);
    StepFrame(s, a);
    assert forall l :: l in s.loops ==> LoopSound(s, l);
    forall i | 0 <= i < |Step(s, a).handles| ensures HandleSound(Step(s, a), i) {
      assert i < |s.handles| ==> HandleSound(s, i);
      StepKeepsAnswer(s, a, i);
      StepKeepsBalancers(s, a, i);
      StepKeepsReady(s, a, i);
    }
  }

  lemma {:induction false} RunKeepsInv(s: State, actions: seq<Action>)
    requires Inv(s) && LegalRun(s, actions)
    ensures Inv(Run(s, actions))
    decreases |actions|
  {
    if actions != [] {
      StepKeepsInv(s, actions[0]);
      RunKeepsInv(Step(s, actions[0]), actions[1..]);
    }
  }

  // ---- Over whole runs ----

  /** In every reachable state the registry lookup of a starting loop succeeds, each host has at
      most one live handle, and every live handle has its start command queued or its own loop
      running on its own weak reference. */
  lemma EveryLiveHandleIsFed(actions: seq<Action>)
    requires LegalRun(INITIAL, actions)
    ensures var s := Run(INITIAL, actions);
            && !s.crashed
            && (forall i: nat, j: nat :: Live(s, i) && Live(s, j) && s.handles[i].hostPort == s.handles[j].hostPort ==> i == j)
            && (forall i: nat :: Live(s, i) ==> i in s.commands || (i in s.loops && (s.loops[i].weak.None? || s.loops[i].weak == Some(i))))
  {
    RunKeepsInv(INITIAL, actions);
    var s := Run(INITIAL, actions);
    forall i: nat | Live(s, i)
      ensures i in s.commands || (i in s.loops && (s.loops[i].weak.None? || s.loops[i].weak == Some(i)))
    {
      assert Fed(s, i);
      if i in s.loops { assert LoopSound(s, i); }
    }
  }

  lemma {:induction false} LiveAtEndLiveNow(s: State, actions: seq<Action>, i: nat)
    requires Inv(s) && LegalRun(s, actions) && i < |s.handles| && Live(Run(s, actions), i)
    ensures Live(s, i)
    decreases |actions|
  {
    if actions != [] {
      StepKeepsInv(s, actions[0]);
      StepFrame(s, actions[0]);
      LiveAtEndLiveNow(Step(s, actions[0]), actions[1..], i);
      DeadStaysDead(s, actions[0], i);
    }
  }

  lemma {:induction false} LoopOutlives(s: State, actions: seq<Action>, i: nat)
    requires Inv(s) && LegalRun(s, actions) && i in s.loops && Live(Run(s, actions), i)
    ensures i in Run(s, actions).loops
    decreases |actions|
  {
    if actions != [] {
      assert LoopSound(s, i);
      LiveAtEndLiveNow(s, actions, i);
      LiveLoopStays(s, actions[0], i);
      StepKeepsInv(s, actions[0]);
      LoopOutlives(Step(s, actions[0]), actions[1..], i);
    }
  }

  /** The loop of a handle never exits while the handle is live: if it runs at some point of a run
      and the handle is still live at a later one, it still runs there. */
  lemma LoopNeverAbandonsLiveHandle(before: seq<Action>, after: seq<Action>, i: nat)
    requires LegalRun(INITIAL, before) && LegalRun(Run(INITIAL, before), after)
    requires i in Run(INITIAL, before).loops && Live(Run(Run(INITIAL, before), after), i)
    ensures i in Run(Run(INITIAL, before), after).loops
  {
    RunKeepsInv(INITIAL, before);
    LoopOutlives(Run(INITIAL, before), after, i);
  }

  // ---- Loops of dead handles wind down ----

  function LoopOf(a: Action): Option<nat> {
    match a
    case Request(_) => None
    case Clone(_) => None
    case Drop(_) => None
    case Dispatch => None
    case ReadRegistry(l) => Some(l)
    case LookupFailed(l) => Some(l)
    case Answered(l, _) => Some(l)
    case Upgrade(l) => Some(l)
    case UpdateRoundRobin(l) => Some(l)
    case UpdateConsistent(l) => Some(l)
    case Check(l) => Some(l)
    case Announce(l, _) => Some(l)
  }

  ghost function StepsBy(actions: seq<Action>, l: nat): nat {
    if actions == [] then 0 else (if LoopOf(actions[0]) == Some(l) then 1 else 0) + StepsBy(actions[1..], l)
  }

  /** How many steps a loop can still take once the handle it watches is dead. */
  function Rank(pc: Pc): nat {
    match pc
    case Announcing => 4
    case Resolving => 3
    case Upgrading => 2
    case Checking => 1
    case _ => 0
  }

  lemma DeadStepDecreases(s: State, a: Action, l: nat)
    requires Enabled(s, a) && LoopOf(a) == Some(l) && l in s.loops && s.loops[l].weak.Some? && !WeakLive(s, l)
    requires s.loops[l].pc != Starting
    ensures l !in Step(s, a).loops || Rank(Step(s, a).loops[l].pc) < Rank(s.loops[l].pc)
  {
  }

  /** No loop `l` runs from here on. */
  ghost predicate Absent(s: State, actions: seq<Action>, l: nat)
    requires LegalRun(s, actions)
    decreases |actions|
  {
    l !in s.loops && (actions != [] ==> Absent(Step(s, actions[0]), actions[1..], l))
  }

  /** Once `l` has left `loops`, at whatever point of the run, it is in `loops` at no later point. */
  ghost predicate NeverReturns(s: State, actions: seq<Action>, l: nat)
    requires LegalRun(s, actions)
    decreases |actions|
  {
    && (l !in s.loops ==> Absent(s, actions, l))
    && (actions != [] ==> NeverReturns(Step(s, actions[0]), actions[1..], l))
  }

  lemma {:induction false} GoneForGood(s: State, actions: seq<Action>, l: nat)
    requires LegalRun(s, actions) && l < |s.handles| && l !in s.loops && l !in s.commands
    ensures StepsBy(actions, l) == 0 && Absent(s, actions, l) && NeverReturns(s, actions, l)
    decreases |actions|
  {
    if actions != [] {
      StepFrame(s, actions[0]);
      GoneForGood(Step(s, actions[0]), actions[1..], l);
    }
  }

  /** A loop exits in two places only. */
  lemma ExitPoints(s: State, a: Action, l: nat)
    requires Enabled(s, a) && l in s.loops && l !in Step(s, a).loops
    ensures a == LookupFailed(l) || a == Check(l)
  {
  }

  /** A loop that exits leaves no command behind. */
  lemma ExitIsClean(s: State, a: Action, l: nat)
    requires CommandsSound(s) && Enabled(s, a) && l in s.loops && l !in Step(s, a).loops
    ensures l < |Step(s, a).handles| && l !in Step(s, a).commands
  {
    ExitPoints(s, a, l);
  }

  lemma {:induction false} ExitIsFinal(s: State, actions: seq<Action>, l: nat)
    requires FeederInv(s) && LegalRun(s, actions) && l in s.loops
    ensures NeverReturns(s, actions, l)
    decreases |actions|
  {
    if actions != [] {
      var a, s' := actions[0], Step(s, actions[0]);
      if l in s'.loops {
        StepKeepsFeederInv(s, a);
        ExitIsFinal(s', actions[1..], l);
      } else {
        ExitIsClean(s, a, l);
        GoneForGood(s', actions[1..], l);
      }
    }
  }

  /** The loop watches a handle that is dead. */
  ghost predicate Doomed(s: State, l: nat) {
    l in s.loops && s.loops[l].weak.Some? && !WeakLive(s, l)
  }

  lemma DoomedStep(s: State, a: Action, l: nat)
    requires FeederInv(s) && Enabled(s, a) && Doomed(s, l) && l in Step(s, a).loops
    ensures Doomed(Step(s, a), l)
    ensures Rank(Step(s, a).loops[l].pc) + (if LoopOf(a) == Some(l) then 1 else 0) <= Rank(s.loops[l].pc)
  {
    assert LoopSound(s, l);
    StepFrame(s, a);
    WeakKept(s, a, l);
    if LoopOf(a) == Some(l) { DeadStepDecreases(s, a, l); }
    var w := s.loops[l].weak.value;
    if Live(Step(s, a), w) { DeadStaysDead(s, a, w); }
  }

  lemma {:induction false} DoomedSteps(s: State, actions: seq<Action>, l: nat)
    requires FeederInv(s) && LegalRun(s, actions) && Doomed(s, l)
    ensures StepsBy(actions, l) <= Rank(s.loops[l].pc)
    decreases |actions|
  {
    if actions != [] {
      var a, s' := actions[0], Step(s, actions[0]);
      if l in s'.loops {
        StepKeepsFeederInv(s, a);
        DoomedStep(s, a, l);
        DoomedSteps(s', actions[1..], l);
      } else {
        ExitPoints(s, a, l);
        ExitIsClean(s, a, l);
        GoneForGood(s', actions[1..], l);
      }
    }
  }

  /** Refreshing stops: once the handle a loop watches is dead, the loop takes at most four more
      steps, whatever the rest of the system does, and it never comes back after its exit. */
  lemma LoopOfDeadHandleWindsDown(s: State, actions: seq<Action>, l: nat)
    requires FeederInv(s) && LegalRun(s, actions) && Doomed(s, l)
    ensures StepsBy(actions, l) <= Rank(s.loops[l].pc) <= 4
    ensures NeverReturns(s, actions, l)
  {
    DoomedSteps(s, actions, l);
    ExitIsFinal(s, actions, l);
  }

  lemma WeakKept(s: State, a: Action, l: nat)
    requires Enabled(s, a) && CommandsSound(s) && l in s.loops && s.loops[l].pc != Starting && l in Step(s, a).loops
    ensures Step(s, a).loops[l].weak == s.loops[l].weak
    ensures LoopOf(a) != Some(l) ==> Step(s, a).loops[l] == s.loops[l]
  {
  }

  /** Once ready a handle stays ready and has published a DNS answer, and outside a send-to-update
      window both balancers of a live handle equal the published set. */
  lemma ReadinessIsPermanent(before: seq<Action>, after: seq<Action>, i: nat)
    requires LegalRun(INITIAL, before) && LegalRun(Run(INITIAL, before), after)
    requires i < |Run(INITIAL, before).handles|
    ensures var s, s' := Run(INITIAL, before), Run(Run(INITIAL, before), after);
            && i < |s'.handles|
            && (s.handles[i].ready ==> s'.handles[i].ready && s'.handles[i].answer == Some(s'.handles[i].published))
            && (Live(s', i) && !InWindow(s', i) ==>
                  s'.handles[i].roundRobin == s'.handles[i].consistent == s'.handles[i].published)
  {
    RunKeepsInv(INITIAL, before);
    RunKeepsInv(Run(INITIAL, before), after);
    StaysReady(Run(INITIAL, before), after, i);
    assert HandleSound(Run(Run(INITIAL, before), after), i);
  }

  lemma {:induction false} StaysReady(s: State, actions: seq<Action>, i: nat)
    requires LegalRun(s, actions) && i < |s.handles|
    ensures i < |Run(s, actions).handles| && (s.handles[i].ready ==> Run(s, actions).handles[i].ready)
    decreases |actions|
  {
    if actions != [] {
      StepFrame(s, actions[0]);
      StaysReady(Step(s, actions[0]), actions[1..], i);
    }
  }

  // ---- What the actions of a run say ----

  /** The last DNS answer of the loop of handle `i`. */
  ghost function LastAnswer(actions: seq<Action>, i: nat): Option<Backends> {
    if actions == [] then None
    else
      var later := LastAnswer(actions[1..], i);
      if later.Some? then later
      else if actions[0].Answered? && actions[0].loop == i then Some(actions[0].backends)
      else None
  }

  ghost function AnswerOf(s: State, i: nat): Option<Backends> { if i < |s.handles| then s.handles[i].answer else None }

  lemma StepAnswers(s: State, a: Action, i: nat)
    requires Enabled(s, a)
    ensures AnswerOf(Step(s, a), i) == if a.Answered? && a.loop == i then Some(a.backends) else AnswerOf(s, i)
  {
  }

  lemma {:induction false} AnswersFrom(s: State, actions: seq<Action>, i: nat)
    requires LegalRun(s, actions)
    ensures AnswerOf(Run(s, actions), i) == if LastAnswer(actions, i).Some? then LastAnswer(actions, i) else AnswerOf(s, i)
    decreases |actions|
  {
    if actions != [] {
      StepAnswers(s, actions[0], i);
      AnswersFrom(Step(s, actions[0]), actions[1..], i);
    }
  }

  /** After every run a handle publishes exactly the last answer of its loop, and nothing before the
      first one; outside a send-to-update window both balancers of a live handle have just that set;
      ready implies that there was an answer, and a live handle whose loop waits for the next answer
      after one is ready. */
  lemma PublishesLastAnswer(actions: seq<Action>, i: nat)
    requires LegalRun(INITIAL, actions) && i < |Run(INITIAL, actions).handles|
    ensures var s, last := Run(INITIAL, actions), LastAnswer(actions, i);
            var h := s.handles[i];
            && h.published == (if last.Some? then last.value else {})
            && (Live(s, i) && !InWindow(s, i) ==> h.roundRobin == h.consistent == h.published)
            && (h.ready ==> last.Some?)
            && (Live(s, i) && i in s.loops && s.loops[i].pc == Resolving && last.Some? ==> h.ready)
  {
    RunKeepsInv(INITIAL, actions);
    AnswersFrom(INITIAL, actions, i);
    assert HandleSound(Run(INITIAL, actions), i);
  }

  /** How often the run hands out a strong reference to `i`: a request that is answered with it, or a
      clone of it. */
  ghost function Taken(s: State, actions: seq<Action>, i: nat): nat
    requires LegalRun(s, actions)
    decreases |actions|
  {
    if actions == [] then 0
    else
      var a, s' := actions[0], Step(s, actions[0]);
      (if a == Clone(i) || (a.Request? && a.hp in s'.registry && s'.registry[a.hp] == i) then 1 else 0)
      + Taken(s', actions[1..], i)
  }

  ghost function Dropped(actions: seq<Action>, i: nat): nat {
    if actions == [] then 0 else (if actions[0] == Drop(i) then 1 else 0) + Dropped(actions[1..], i)
  }

  ghost function ExternalOf(s: State, i: nat): nat { if i < |s.handles| then s.handles[i].external else 0 }

  lemma {:induction false} CountsFrom(s: State, actions: seq<Action>, i: nat)
    requires LegalRun(s, actions)
    ensures ExternalOf(Run(s, actions), i) + Dropped(actions, i) == ExternalOf(s, i) + Taken(s, actions, i)
    decreases |actions|
  {
    if actions != [] { CountsFrom(Step(s, actions[0]), actions[1..], i); }
  }

  /** The strong references outside the loops are those handed out and not dropped. */
  lemma ReferencesConserved(actions: seq<Action>, i: nat)
    requires LegalRun(INITIAL, actions)
    ensures ExternalOf(Run(INITIAL, actions), i) + Dropped(actions, i) == Taken(INITIAL, actions, i)
  {
    CountsFrom(INITIAL, actions, i);
  }

  /** The queue holds the newest handles in the order of their creation. */
  ghost predicate QueueInOrder(s: State) {
    && |s.commands| <= |s.handles|
    && forall k :: 0 <= k < |s.commands| ==> s.commands[k] == |s.handles| - |s.commands| + k
  }

  /** Commands are taken first in, first out, and none is lost or taken twice. */
  lemma {:induction false} CommandsInOrder(s: State, actions: seq<Action>)
    requires LegalRun(s, actions) && QueueInOrder(s)
    ensures QueueInOrder(Run(s, actions))
    decreases |actions|
  {
    if actions != [] {
      StepFrame(s, actions[0]);
      CommandsInOrder(Step(s, actions[0]), actions[1..]);
    }
  }

  // ---- Not true: one loop per host ----

  lemma LegalCons(s: State, a: Action, rest: seq<Action>)
    requires Enabled(s, a) && LegalRun(Step(s, a), rest)
    ensures LegalRun(s, [a] + rest) && Run(s, [a] + rest) == Run(Step(s, a), rest)
  {
    assert ([a] + rest)[0] == a && ([a] + rest)[1..] == rest;
  }

  lemma {:induction false} RunConcat(s: State, x: seq<Action>, y: seq<Action>)
    requires LegalRun(s, x) && LegalRun(Run(s, x), y)
    ensures LegalRun(s, x + y) && Run(s, x + y) == Run(Run(s, x), y)
    decreases |x|
  {
    if x == [] { assert x + y == y; } else {
      RunConcat(Step(s, x[0]), x[1..], y);
      LegalCons(s, x[0], x[1..] + y);
      assert x + y == [x[0]] + (x[1..] + y);
    }
  }

  ghost function Abandon(hp: HostPort): seq<Action> { [Request(hp), Drop(0), Request(hp)] }

  ghost function StartBoth(): seq<Action> { [Dispatch, Dispatch, ReadRegistry(0), ReadRegistry(1)] }

  ghost function Pair(hp: HostPort): seq<Handle> { [NewHandle(hp).(external := 0), NewHandle(hp)] }

  lemma AbandonRun(hp: HostPort)
    ensures LegalRun(INITIAL, Abandon(hp))
    ensures Run(INITIAL, Abandon(hp)) == State(Pair(hp), map[hp := 1], [0, 1], map[], false)
  {
    var s1 := State([NewHandle(hp)], map[hp := 0], [0], map[], false);
    assert Step(INITIAL, Request(hp)) == s1;
    var s2 := s1.(handles := [NewHandle(hp).(external := 0)]);
    assert Step(s1, Drop(0)) == s2;
    assert Step(s2, Request(hp)) == State(Pair(hp), map[hp := 1], [0, 1], map[], false);
    LegalCons(s2, Request(hp), []);
    LegalCons(s1, Drop(0), [Request(hp)]);
    LegalCons(INITIAL, Request(hp), [Drop(0), Request(hp)]);
  }

  lemma StartBothRun(hp: HostPort, s: State)
    requires s == State(Pair(hp), map[hp := 1], [0, 1], map[], false)
    ensures LegalRun(s, StartBoth())
    ensures Run(s, StartBoth()) ==
            s.(commands := [], loops := map[0 := Loop(Some(1), Resolving), 1 := Loop(Some(1), Resolving)])
  {
    var s1 := s.(commands := [1], loops := map[0 := Loop(None, Starting)]);
    assert Step(s, Dispatch) == s1;
    var s2 := s.(commands := [], loops := map[0 := Loop(None, Starting), 1 := Loop(None, Starting)]);
    assert Step(s1, Dispatch) == s2;
    var s3 := s2.(loops := map[0 := Loop(Some(1), Resolving), 1 := Loop(None, Starting)]);
    assert Step(s2, ReadRegistry(0)) == s3;
    var s4 := s2.(loops := map[0 := Loop(Some(1), Resolving), 1 := Loop(Some(1), Resolving)]);
    assert Step(s3, ReadRegistry(1)) == s4;
    LegalCons(s3, ReadRegistry(1), []);
    LegalCons(s2, ReadRegistry(0), [ReadRegistry(1)]);
    LegalCons(s1, Dispatch, [ReadRegistry(0), ReadRegistry(1)]);
    LegalCons(s, Dispatch, [Dispatch, ReadRegistry(0), ReadRegistry(1)]);
  }

  /** Drop a handle before its loop starts and ask again: two loops then refresh one host, both on
      the newer handle's weak reference. */
  lemma TwoLoopsOneHost(hp: HostPort)
    ensures LegalRun(INITIAL, Abandon(hp) + StartBoth())
    ensures var s := Run(INITIAL, Abandon(hp) + StartBoth());
            && |s.handles| == 2 && s.handles[0].hostPort == s.handles[1].hostPort == hp
            && s.loops == map[0 := Loop(Some(1), Resolving), 1 := Loop(Some(1), Resolving)]
            && !Live(s, 0) && Live(s, 1)
  {
    AbandonRun(hp);
    StartBothRun(hp, Run(INITIAL, Abandon(hp)));
    RunConcat(INITIAL, Abandon(hp), StartBoth());
  }

  /** What remains true: of two loops for one host at most one is the loop of a live handle, and a
      loop refreshes another handle than its own only if its own is dead. */
  lemma StrayLoopsBelongToDeadHandles(actions: seq<Action>, l: nat, l': nat)
    requires LegalRun(INITIAL, actions)
    requires var s := Run(INITIAL, actions); l in s.loops && l' in s.loops && l != l'
    ensures var s := Run(INITIAL, actions);
            && l < |s.handles| && l' < |s.handles|
            && (s.handles[l].hostPort == s.handles[l'].hostPort ==> !Live(s, l) || !Live(s, l'))
            && (s.loops[l].weak == Some(l') ==> !Live(s, l))
  {
    RunKeepsInv(INITIAL, actions);
    var s := Run(INITIAL, actions);
    assert LoopSound(s, l) && LoopSound(s, l');
  }

  // ---- Exactly when it is true ----

  ghost predicate SameHost(s: State, i: nat, j: nat) {
    i < |s.handles| && j < |s.handles| && s.handles[i].hostPort == s.handles[j].hostPort
  }

  /** At most one loop runs per host. */
  ghost predicate OneLoopPerHost(s: State) {
    forall l, l' :: l in s.loops && l' in s.loops && SameHost(s, l, l') ==> l == l'
  }

  /** A start command is taken while a loop for its host still runs. */
  ghost predicate Crowds(s: State, a: Action) {
    a.Dispatch? && s.commands != [] && exists l :: l in s.loops && SameHost(s, l, s.commands[0])
  }

  lemma CrowdingDoubles(s: State, a: Action)
    requires FeederInv(s) && Enabled(s, a) && Crowds(s, a)
    ensures !OneLoopPerHost(Step(s, a))
  {
    var s', l' := Step(s, a), s.commands[0];
    var l :| l in s.loops && SameHost(s, l, l');
    assert l' !in s.loops;
    assert l in s'.loops && l' in s'.loops && SameHost(s', l, l');
  }

  lemma OthersKeepOneLoop(s: State, a: Action)
    requires FeederInv(s) && Enabled(s, a) && OneLoopPerHost(s) && !Crowds(s, a)
    ensures OneLoopPerHost(Step(s, a))
  {
    var s' := Step(s, a);
    StepFrame(s, a);
    forall l, l' | l in s'.loops && l' in s'.loops && SameHost(s', l, l') ensures l == l' {
      LoopAfter(s, a, l);
      LoopAfter(s, a, l');
      assert l in s.loops ==> LoopSound(s, l);
      assert l' in s.loops ==> LoopSound(s, l');
      assert SameHost(s, l, l');
    }
  }

  ghost predicate AlwaysOneLoopPerHost(s: State, actions: seq<Action>)
    requires LegalRun(s, actions)
    decreases |actions|
  {
    OneLoopPerHost(s) && (actions != [] ==> AlwaysOneLoopPerHost(Step(s, actions[0]), actions[1..]))
  }

  ghost predicate NeverCrowds(s: State, actions: seq<Action>)
    requires LegalRun(s, actions)
    decreases |actions|
  {
    actions != [] ==> !Crowds(s, actions[0]) && NeverCrowds(Step(s, actions[0]), actions[1..])
  }

  lemma {:induction false} OneLoopFrom(s: State, actions: seq<Action>)
    requires FeederInv(s) && OneLoopPerHost(s) && LegalRun(s, actions)
    ensures AlwaysOneLoopPerHost(s, actions) <==> NeverCrowds(s, actions)
    decreases |actions|
  {
    if actions != [] {
      StepKeepsFeederInv(s, actions[0]);
      if Crowds(s, actions[0]) {
        CrowdingDoubles(s, actions[0]);
      } else {
        OthersKeepOneLoop(s, actions[0]);
        OneLoopFrom(Step(s, actions[0]), actions[1..]);
      }
    }
  }

  /** A run never has two loops for one host exactly when no start command is taken while a loop
      for its host still runs. */
  lemma OneLoopPerHostIff(actions: seq<Action>)
    requires LegalRun(INITIAL, actions)
    ensures AlwaysOneLoopPerHost(INITIAL, actions) <==> NeverCrowds(INITIAL, actions)
  {
    OneLoopFrom(INITIAL, actions);
  }

  // ---- What the users of the handles can do about it ----

  /** At most one loop per host, running or still to be started. */
  ghost predicate OneFeederPerHost(s: State) {
    forall i: nat, j: nat :: Fed(s, i) && Fed(s, j) && SameHost(s, i, j) ==> i == j
  }

  /** A request that creates a handle while the loop of an earlier, dead one is still about. */
  ghost predicate Hasty(s: State, a: Action) {
    && a.Request? && !(a.hp in s.registry && Live(s, s.registry[a.hp]))
    && exists i: nat :: Fed(s, i) && i < |s.handles| && s.handles[i].hostPort == a.hp
  }

  lemma FedAfter(s: State, a: Action, i: nat)
    requires Enabled(s, a)
    ensures Fed(Step(s, a), i) ==> Fed(s, i) || (i == |s.handles| && |Step(s, a).handles| == i + 1)
  {
    if a.Dispatch? { assert s.commands == [s.commands[0]] + s.commands[1..]; }
  }

  lemma HastyDoubles(s: State, a: Action)
    requires FeederInv(s) && Enabled(s, a) && Hasty(s, a)
    ensures !OneFeederPerHost(Step(s, a))
  {
    var s' := Step(s, a);
    var i: nat :| Fed(s, i) && i < |s.handles| && s.handles[i].hostPort == a.hp;
    assert s'.commands[|s.commands|] == |s.handles|;
    assert Fed(s', i) && Fed(s', |s.handles|);
  }

  lemma OthersKeepOneFeeder(s: State, a: Action)
    requires FeederInv(s) && Enabled(s, a) && OneFeederPerHost(s) && !Hasty(s, a)
    ensures OneFeederPerHost(Step(s, a))
  {
    var s' := Step(s, a);
    StepFrame(s, a);
    forall i: nat, j: nat | Fed(s', i) && Fed(s', j) && SameHost(s', i, j) ensures i == j {
      FedAfter(s, a, i);
      FedAfter(s, a, j);
    }
  }

  ghost predicate NeverHasty(s: State, actions: seq<Action>)
    requires LegalRun(s, actions)
    decreases |actions|
  {
    actions != [] ==> !Hasty(s, actions[0]) && NeverHasty(Step(s, actions[0]), actions[1..])
  }

  ghost predicate AlwaysOneFeederPerHost(s: State, actions: seq<Action>)
    requires LegalRun(s, actions)
    decreases |actions|
  {
    OneFeederPerHost(s) && (actions != [] ==> AlwaysOneFeederPerHost(Step(s, actions[0]), actions[1..]))
  }

  lemma {:induction false} OneFeederFrom(s: State, actions: seq<Action>)
    requires FeederInv(s) && OneFeederPerHost(s) && LegalRun(s, actions)
    ensures AlwaysOneFeederPerHost(s, actions) <==> NeverHasty(s, actions)
    decreases |actions|
  {
    if actions != [] {
      StepKeepsFeederInv(s, actions[0]);
      if Hasty(s, actions[0]) {
        HastyDoubles(s, actions[0]);
      } else {
        OthersKeepOneFeeder(s, actions[0]);
        OneFeederFrom(Step(s, actions[0]), actions[1..]);
      }
    }
  }

  lemma {:induction false} OneFeederMeansOneLoop(s: State, actions: seq<Action>)
    requires LegalRun(s, actions) && AlwaysOneFeederPerHost(s, actions)
    ensures AlwaysOneLoopPerHost(s, actions)
    decreases |actions|
  {
    assert forall l :: l in s.loops ==> Fed(s, l);
    if actions != [] { OneFeederMeansOneLoop(Step(s, actions[0]), actions[1..]); }
  }

  /** A discipline that is enough, although not necessary: never ask for a host whose last handle
      is dead while that handle's loop is queued or running. It is exactly what keeps the loops
      and the queued starts of a host together to one. */
  lemma PatienceIsEnough(actions: seq<Action>)
    requires LegalRun(INITIAL, actions)
    ensures AlwaysOneFeederPerHost(INITIAL, actions) <==> NeverHasty(INITIAL, actions)
    ensures NeverHasty(INITIAL, actions) ==> AlwaysOneLoopPerHost(INITIAL, actions)
  {
    OneFeederFrom(INITIAL, actions);
    if NeverHasty(INITIAL, actions) { OneFeederMeansOneLoop(INITIAL, actions); }
  }

  lemma RunCons(s: State, a: Action, rest: seq<Action>)
    requires Enabled(s, a) && LegalRun(Step(s, a), rest)
    ensures LegalRun(s, [a] + rest)
    ensures NeverCrowds(s, [a] + rest) <==> !Crowds(s, a) && NeverCrowds(Step(s, a), rest)
    ensures NeverHasty(s, [a] + rest) <==> !Hasty(s, a) && NeverHasty(Step(s, a), rest)
  {
    assert ([a] + rest)[0] == a && ([a] + rest)[1..] == rest;
  }

  ghost function Restart(hp: HostPort): seq<Action> { [Request(hp), LookupFailed(0), Dispatch] }

  lemma RestartInTime(hp: HostPort, s: State)
    requires s == State([NewHandle(hp).(external := 0)], map[hp := 0], [], map[0 := Loop(Some(0), Resolving)], false)
    ensures LegalRun(s, Restart(hp)) && !NeverHasty(s, Restart(hp)) && NeverCrowds(s, Restart(hp))
  {
    var s1 := State(Pair(hp), map[hp := 1], [1], s.loops, false);
    assert Step(s, Request(hp)) == s1;
    assert Fed(s, 0) && Hasty(s, Request(hp));
    var s2 := s1.(loops := map[]);
    assert Step(s1, LookupFailed(0)) == s2;
    RunCons(s2, Dispatch, []);
    RunCons(s1, LookupFailed(0), [Dispatch]);
    RunCons(s, Request(hp), [LookupFailed(0), Dispatch]);
  }

  ghost function Restarted(hp: HostPort): seq<Action> {
    [Request(hp)] + ([Dispatch] + ([ReadRegistry(0)] + ([Drop(0)] + Restart(hp))))
  }

  lemma RestartAfterDrop(hp: HostPort, s: State)
    requires s == State([NewHandle(hp)], map[hp := 0], [], map[0 := Loop(None, Starting)], false)
    ensures var actions := [ReadRegistry(0)] + ([Drop(0)] + Restart(hp));
            LegalRun(s, actions) && !NeverHasty(s, actions) && NeverCrowds(s, actions)
  {
    var s1 := s.(loops := map[0 := Loop(Some(0), Resolving)]);
    assert Step(s, ReadRegistry(0)) == s1;
    var s2 := s1.(handles := [NewHandle(hp).(external := 0)]);
    assert Step(s1, Drop(0)) == s2;
    RestartInTime(hp, s2);
    RunCons(s1, Drop(0), Restart(hp));
    RunCons(s, ReadRegistry(0), [Drop(0)] + Restart(hp));
  }

  /** It is not necessary: the old loop may find out in time. */
  lemma PatienceIsNotNecessary(hp: HostPort)
    ensures LegalRun(INITIAL, Restarted(hp))
    ensures !NeverHasty(INITIAL, Restarted(hp)) && AlwaysOneLoopPerHost(INITIAL, Restarted(hp))
  {
    var s1 := State([NewHandle(hp)], map[hp := 0], [0], map[], false);
    assert Step(INITIAL, Request(hp)) == s1;
    var s2 := s1.(commands := [], loops := map[0 := Loop(None, Starting)]);
    assert Step(s1, Dispatch) == s2;
    RestartAfterDrop(hp, s2);
    var rest := [ReadRegistry(0)] + ([Drop(0)] + Restart(hp));
    RunCons(s1, Dispatch, rest);
    RunCons(INITIAL, Request(hp), [Dispatch] + rest);
    OneLoopPerHostIff(Restarted(hp));
  }
}
