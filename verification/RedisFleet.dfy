/** The fleet of redis replicas (grcache-proxy/src/cache/redis_replicas.rs): which pools exist. */
module PoolReconciler {

  type Backend = string

  datatype Pc = Parked | Borrowing | Retaining | Adding(rest: seq<Backend>)

  /** `value` and `version` are the discovery watch channel; `seen` is the version the service has
      marked as seen. `pools` maps a backend to the number of its connection pool. `snapshot` is
      the set the service borrowed last, when the channel was at `snapshotVersion`. */
  datatype State = State(
    value: set<Backend>,
    version: nat,
    seen: int,
    pc: Pc,
    snapshot: set<Backend>,
    snapshotVersion: int,
    pools: map<Backend, nat>,
    built: nat)

  /** `mark_changed` makes the first wait return at once, whatever the channel holds by then. */
  function Initial(value: set<Backend>): State { State(value, 0, -1, Parked, {}, -1, map[], 0) }

  datatype Action =
    | Publish(backends: set<Backend>)
    | Wake
    | Borrow
    | Retain(order: seq<Backend>)
    | AddNext
    | Park

  ghost predicate Lists(order: seq<Backend>, backends: set<Backend>) { forall b :: b in order <==> b in backends }

  /** `send_if_modified` publishes changes only, at any time; the service's own steps follow its
      program counter. */
  ghost predicate Enabled(s: State, a: Action) {
    match a
    case Publish(b) => b != s.value
    case Wake => s.pc == Parked && s.seen != s.version
    case Borrow => s.pc == Borrowing
    case Retain(order) => s.pc == Retaining && Lists(order, s.snapshot)
    case AddNext => s.pc.Adding? && s.pc.rest != []
    case Park => s.pc == Adding([])
  }

  function Step(s: State, a: Action): State
    requires a.AddNext? ==> s.pc.Adding? && s.pc.rest != []
  {
    match a
    case Publish(b) => s.(value := b, version := s.version + 1)
    case Wake => s.(seen := s.version, pc := Borrowing)
    case Borrow => s.(snapshot := s.value, snapshotVersion := s.version, pc := Retaining)
    case Retain(order) => s.(pools := map b | b in s.pools && b in s.snapshot :: s.pools[b], pc := Adding(order))
    case AddNext =>
      var b := s.pc.rest[0];
      if b in s.pools then s.(pc := Adding(s.pc.rest[1..]))
      else s.(pc := Adding(s.pc.rest[1..]), pools := s.pools[b := s.built], built := s.built + 1)
    case Park => s.(pc := Parked)
  }

  ghost predicate LegalRun(s: State, actions: seq<Action>)
    decreases |actions|
  {
    actions == [] || (Enabled(s, actions[0]) && LegalRun(Step(s, actions[0]), actions[1..]))
  }

  ghost function Run(s: State, actions: seq<Action>): State
    requires LegalRun(s, actions)
    decreases |actions|
  {
    if actions == [] then s else Run(Step(s, actions[0]), actions[1..])
  }

  ghost predicate Inv(s: State) {
    && s.snapshotVersion <= s.version
    && (s.snapshotVersion == s.version ==> s.snapshot == s.value)
    && s.seen <= (if s.pc == Borrowing then s.version else s.snapshotVersion)
    && match s.pc
       case Parked => s.pools.Keys == s.snapshot
       case Borrowing => true
       case Retaining => true
       case Adding(rest) =>
         && s.pools.Keys <= s.snapshot
         && (forall b :: b in rest ==> b in s.snapshot)
         && (forall b :: b in s.snapshot ==> b in s.pools || b in rest)
  }

  lemma StepKeepsInv(s: State, a: Action)
    requires Inv(s) && Enabled(s, a)
    ensures Inv(Step(s, a))
  {
    if a.AddNext? { assert s.pc.rest == [s.pc.rest[0]] + s.pc.rest[1..]; }
  }

  lemma {:induction false} RunKeepsInv(s: State, actions: seq<Action>)
    requires Inv(s) && LegalRun(s, actions)
    ensures Inv(Run(s, actions))
    decreases |actions|
  {
    if actions != [] {
      StepKeepsInv(s, actions[0]);
      RunKeepsInv(Step(s, actions[0]), actions[1..]);
    }
  }

  /** The set that the last `Publish` of the run sent. */
  ghost function LastPublished(value: set<Backend>, actions: seq<Action>): set<Backend>
    decreases |actions|
  {
    if actions == [] then value
    else LastPublished(if actions[0].Publish? then actions[0].backends else value, actions[1..])
  }

  lemma {:induction false} ValueIsLastPublished(s: State, actions: seq<Action>)
    requires LegalRun(s, actions)
    ensures Run(s, actions).value == LastPublished(s.value, actions)
    decreases |actions|
  {
    if actions != [] { ValueIsLastPublished(Step(s, actions[0]), actions[1..]); }
  }

  /** Whenever the service is parked and has seen the current version, the pools are those of the
      published set, however many updates were coalesced or arrived in the middle of a pass. */
  lemma ParkedMeansReconciled(value: set<Backend>, actions: seq<Action>)
    requires LegalRun(Initial(value), actions)
    ensures var s := Run(Initial(value), actions);
            s.pc == Parked && s.seen == s.version ==> s.pools.Keys == LastPublished(value, actions)
  {
    RunKeepsInv(Initial(value), actions);
    ValueIsLastPublished(Initial(value), actions);
  }

  /** No update is missed: a parked service that is behind can wake. */
  lemma ParkedOrCanWake(value: set<Backend>, actions: seq<Action>)
    requires LegalRun(Initial(value), actions)
    ensures var s := Run(Initial(value), actions);
            s.pc == Parked && s.pools.Keys != LastPublished(value, actions) ==> Enabled(s, Wake)
  {
    ParkedMeansReconciled(value, actions);
  }

  ghost predicate NoPublish(actions: seq<Action>) {
    actions != [] ==> !actions[0].Publish? && NoPublish(actions[1..])
  }

  lemma {:induction false} SeenStaysCurrent(s: State, actions: seq<Action>)
    requires LegalRun(s, actions) && NoPublish(actions) && s.seen == s.version
    ensures Run(s, actions).seen == Run(s, actions).version && Run(s, actions).value == s.value
    decreases |actions|
  {
    if actions != [] { SeenStaysCurrent(Step(s, actions[0]), actions[1..]); }
  }

  /** One pass is enough: if nothing is published after a wake-up, then when the service parks again
      its pools are those of the published set, and it stays parked. */
  lemma OnePassSuffices(value: set<Backend>, before: seq<Action>, pass: seq<Action>)
    requires LegalRun(Initial(value), before) && Enabled(Run(Initial(value), before), Wake)
    requires var woken := Step(Run(Initial(value), before), Wake);
             LegalRun(woken, pass) && NoPublish(pass) && Run(woken, pass).pc == Parked
    ensures var s := Run(Step(Run(Initial(value), before), Wake), pass);
            s.pools.Keys == LastPublished(value, before) && !Enabled(s, Wake)
  {
    var s := Run(Initial(value), before);
    RunKeepsInv(Initial(value), before);
    ValueIsLastPublished(Initial(value), before);
    StepKeepsInv(s, Wake);
    RunKeepsInv(Step(s, Wake), pass);
    SeenStaysCurrent(Step(s, Wake), pass);
  }

  /** `b` is in every set the service acts on during the run. */
  ghost predicate AlwaysObserved(s: State, actions: seq<Action>, b: Backend)
    requires LegalRun(s, actions)
    decreases |actions|
  {
    && (s.pc == Retaining ==> b in s.snapshot)
    && (actions != [] ==> AlwaysObserved(Step(s, actions[0]), actions[1..], b))
  }

  /** A pool is never rebuilt while its backend stays in every observed set. */
  lemma {:induction false} PoolKept(s: State, actions: seq<Action>, b: Backend)
    requires LegalRun(s, actions) && b in s.pools && AlwaysObserved(s, actions, b)
    ensures b in Run(s, actions).pools && Run(s, actions).pools[b] == s.pools[b]
    decreases |actions|
  {
    if actions != [] { PoolKept(Step(s, actions[0]), actions[1..], b); }
  }

  /** Pool numbers were given out, and no two backends share one. */
  ghost predicate Distinct(pools: map<Backend, nat>, built: nat) {
    && (forall b :: b in pools ==> pools[b] < built)
    && (forall b, b' :: b in pools && b' in pools && pools[b] == pools[b'] ==> b == b')
  }

  /** Backends never share a pool. */
  lemma {:induction false} PoolsDistinct(s: State, actions: seq<Action>)
    requires LegalRun(s, actions) && Distinct(s.pools, s.built)
    ensures Distinct(Run(s, actions).pools, Run(s, actions).built)
    decreases |actions|
  {
    if actions != [] { PoolsDistinct(Step(s, actions[0]), actions[1..]); }
  }

  /** One pass of the loop, uninterrupted. */
  class RedisPools {
    var pools: map<Backend, nat>
    var built: nat

    constructor ()
      ensures pools == map[] && built == 0
    {
      pools, built := map[], 0;
    }

    method Reconcile(backends: set<Backend>)
      requires Distinct(pools, built)
      modifies this
      ensures pools.Keys == backends && Distinct(pools, built)
      ensures forall b :: b in backends && b in old(pools) ==> pools[b] == old(pools)[b]
      ensures forall b :: b in backends && b !in old(pools) ==> old(built) <= pools[b] < built
      ensures built >= old(built)
    {
      pools := map b | b in pools && b in backends :: pools[b];
      var rest := backends;
      while rest != {}
        invariant rest <= backends && built >= old(built) && Distinct(pools, built)
        invariant pools.Keys <= backends && backends - rest <= pools.Keys
        invariant forall b :: b in old(pools) && b in backends ==> b in pools && pools[b] == old(pools)[b]
        invariant forall b :: b in pools && b !in old(pools) ==> old(built) <= pools[b] < built
        decreases rest
      {
        var b :| b in rest;
        if b !in pools {
          pools := pools[b := built];
          built := built + 1;
        }
        rest := rest - {b};
      }
    }
  }
}

/** The sharded store behind the pools: writers, readers, failures and membership changes. */
module ShardedCache {
  import opened Text
  import opened LittleEndian
  import opened CacheData
  import PoolReconciler

  type Backend = PoolReconciler.Backend
  type Hash = Bytes

  /** The consistent load balancer: a fixed function of the key, its ring and what the filter
      accepts. */
  type Selector = (Hash, set<Backend>, set<Backend>) -> Option<Backend>

  /** A `RedisCacheMiss`; `target` is the pool found for it once `finish` has asked. */
  datatype Writer = Writer(hash: Hash, metaInternal: Bytes, metaHeader: Bytes, value: Bytes, target: Option<Backend>)

  /** The balancer's ring, the backends that pass the health check, and those that have a pool. */
  datatype Fleet = Fleet(ring: set<Backend>, healthy: set<Backend>, pools: set<Backend>)

  datatype State = State(fleet: Fleet, stores: map<Backend, map<Hash, Bytes>>, writers: map<nat, Writer>)

  const INITIAL := State(Fleet({}, {}, {}), map[], map[])

  /** `select_backend`, then the `get` that may lose a race with the reconciler. */
  ghost function PoolForHash(select: Selector, fleet: Fleet, h: Hash): Option<Backend> {
    match select(h, fleet.ring, fleet.healthy * fleet.pools)
    case None => None
    case Some(b) => if b in fleet.pools then Some(b) else None
  }

  /** The balancer returns a member of its ring that the filter accepts, if there is one. */
  ghost predicate Honest(select: Selector) {
    forall h, ring, accepted ::
      match select(h, ring, accepted)
      case Some(b) => b in ring && b in accepted
      case None => ring !! accepted
  }

  /** With such a balancer a pool is found exactly when some healthy member of the ring has one, and
      it is the pool of such a member. */
  lemma PoolIsUsable(select: Selector, fleet: Fleet, h: Hash)
    requires Honest(select)
    ensures PoolForHash(select, fleet, h).Some? <==> exists b :: b in fleet.ring && b in fleet.healthy && b in fleet.pools
    ensures PoolForHash(select, fleet, h).Some? ==>
              var b := PoolForHash(select, fleet, h).value; b in fleet.ring && b in fleet.healthy && b in fleet.pools
  {
    var chosen := select(h, fleet.ring, fleet.healthy * fleet.pools);
    match chosen {
      case Some(b) => assert b in fleet.healthy * fleet.pools;
      case None =>
        forall b | b in fleet.healthy && b in fleet.pools ensures b !in fleet.ring {
          assert b in fleet.healthy * fleet.pools;
        }
    }
  }

  datatype Action =
    | Membership(fleet: Fleet)
    | Evict(backend: Backend, hash: Hash)
    | Open(id: nat, hash: Hash, metaInternal: Bytes, metaHeader: Bytes)
    | WriteBody(id: nat, chunk: Bytes)
    | Select(id: nat, raced: bool)
    | Set(id: nat, applied: bool)

  function DataOf(w: Writer): CacheData { CacheData(w.metaInternal, w.metaHeader, w.value) }

  /** A `set` may fail, with or without having taken effect; lengths fit the codec. */
  ghost predicate Enabled(s: State, a: Action) {
    match a
    case Membership(_) => true
    case Evict(_, _) => true
    case Open(id, _, _, _) => id !in s.writers
    case WriteBody(id, _) => id in s.writers && s.writers[id].target.None?
    case Select(id, _) => id in s.writers && s.writers[id].target.None?
    case Set(id, _) => id in s.writers && Fits(DataOf(s.writers[id]))
  }

  function Put(stores: map<Backend, map<Hash, Bytes>>, b: Backend, h: Hash, v: Bytes): map<Backend, map<Hash, Bytes>> {
    stores[b := (if b in stores then stores[b] else map[])[h := v]]
  }

  ghost function Step(select: Selector, s: State, a: Action): State
    requires Enabled(s, a)
  {
    match a
    case Membership(fleet) => s.(fleet := fleet)
    case Evict(b, h) => if b in s.stores then s.(stores := s.stores[b := s.stores[b] - {h}]) else s
    case Open(id, h, m0, m1) => s.(writers := s.writers[id := Writer(h, m0, m1, [], None)])
    case WriteBody(id, chunk) =>
      var w := s.writers[id];
      s.(writers := s.writers[id := w.(value := w.value + chunk)])
    case Select(id, raced) =>
      var w := s.writers[id];
      s.(writers := s.writers[id := w.(target := if raced then None else PoolForHash(select, s.fleet, w.hash))])
    case Set(id, applied) =>
      var w := s.writers[id];
      var s' := s.(writers := s.writers - {id});
      if w.target.None? || !applied then s'
      else s'.(stores := Put(s.stores, w.target.value, w.hash, Encode(DataOf(w))))
  }

  function Front(actions: seq<Action>): seq<Action>
    requires actions != []
  {
    actions[..|actions| - 1]
  }

  function Last(actions: seq<Action>): Action
    requires actions != []
  {
    actions[|actions| - 1]
  }

  ghost predicate LegalRun(select: Selector, actions: seq<Action>)
    decreases |actions|, 0
  {
    actions == [] || (LegalRun(select, Front(actions)) && Enabled(Run(select, Front(actions)), Last(actions)))
  }

  /** The state after a run from the empty fleet. */
  ghost function Run(select: Selector, actions: seq<Action>): State
    requires LegalRun(select, actions)
    decreases |actions|, 1
  {
    if actions == [] then INITIAL else Step(select, Run(select, Front(actions)), Last(actions))
  }

  // ---- Reading ----

  datatype LookupResult = Miss | Found(data: CacheData) | Corrupt

  /** What a reader that settled on backend `b`, at whatever moment, gets for `h`. */
  function ReadAt(s: State, b: Backend, h: Hash): LookupResult {
    if b !in s.stores || h !in s.stores[b] then Miss
    else match Decode(s.stores[b][h])
      case Hit(d) => Found(d)
      case _ => Corrupt
  }

  ghost function Lookup(select: Selector, s: State, h: Hash): LookupResult {
    match PoolForHash(select, s.fleet, h)
    case None => Miss
    case Some(b) => ReadAt(s, b, h)
  }

  // ---- The handler, in place ----

  function Flatten(chunks: seq<Bytes>): Bytes {
    if chunks == [] then [] else Flatten(chunks[..|chunks| - 1]) + chunks[|chunks| - 1]
  }

  class RedisCacheMiss {
    const hash: Hash
    const metaInternal: Bytes
    const metaHeader: Bytes
    var value: Bytes
    ghost var chunks: seq<Bytes>

    ghost predicate Valid()
      reads this
    {
      value == Flatten(chunks)
    }

    constructor (hash: Hash, metaInternal: Bytes, metaHeader: Bytes)
      ensures Valid() && chunks == [] && this.hash == hash && this.metaInternal == metaInternal && this.metaHeader == metaHeader
    {
      this.hash, this.metaInternal, this.metaHeader := hash, metaInternal, metaHeader;
      value, chunks := [], [];
    }

    method WriteBody(data: Bytes)
      requires Valid()
      modifies this
      ensures Valid() && chunks == old(chunks) + [data]
    {
      value := value + data;
      chunks := chunks + [data];
      assert chunks[..|chunks| - 1] == old(chunks);
    }

    /** `finish` as far as the bytes sent to the connection. */
    method Serialize() returns (data: Bytes)
      requires Valid() && |value| < U64_LIMIT && |metaInternal| < U64_LIMIT && |metaHeader| < U64_LIMIT
      ensures Decode(data) == Hit(CacheData(metaInternal, metaHeader, Flatten(chunks)))
    {
      data := Encode(CacheData(metaInternal, metaHeader, value));
      DecodeEncode(CacheData(metaInternal, metaHeader, value), []);
      assert data + [] == data;
    }
  }

  // ---- What the actions of a run say ----

  /** The last `get_miss_handler` that made writer `id`. */
  ghost function Opening(actions: seq<Action>, id: nat): Option<Action> {
    if actions == [] then None
    else if Last(actions).Open? && Last(actions).id == id then Some(Last(actions))
    else Opening(Front(actions), id)
  }

  /** The chunks written to `id` since then, in order. */
  ghost function Chunks(actions: seq<Action>, id: nat): seq<Bytes> {
    if actions == [] || (Last(actions).Open? && Last(actions).id == id) then []
    else if Last(actions).WriteBody? && Last(actions).id == id then Chunks(Front(actions), id) + [Last(actions).chunk]
    else Chunks(Front(actions), id)
  }

  /** The membership in force. */
  ghost function Current(actions: seq<Action>): Fleet {
    if actions == [] then Fleet({}, {}, {})
    else if Last(actions).Membership? then Last(actions).fleet
    else Current(Front(actions))
  }

  /** The pool that the last `pool_for_hash` of writer `id` found for the hash it was opened with. */
  ghost function Target(select: Selector, actions: seq<Action>, id: nat): Option<Backend> {
    if actions == [] || (Last(actions).Open? && Last(actions).id == id) then None
    else
      var a, front := Last(actions), Front(actions);
      if a.Select? && a.id == id then
        var o := Opening(front, id);
        if a.raced || o.None? || !o.value.Open? then None else PoolForHash(select, Current(front), o.value.hash)
      else Target(select, front, id)
  }

  /** Writer `id` was opened for `h` and the metadata of `d`, and the chunks written to it since make
      up the body of `d`. */
  ghost predicate Drafted(actions: seq<Action>, id: nat, h: Hash, d: CacheData) {
    Opening(actions, id) == Some(Open(id, h, d.metaInternal, d.metaHeader)) && d.body == Flatten(Chunks(actions, id))
  }

  lemma FlattenSnoc(chunks: seq<Bytes>, chunk: Bytes)
    ensures Flatten(chunks + [chunk]) == Flatten(chunks) + chunk
  {
    assert (chunks + [chunk])[..|chunks|] == chunks;
  }

  lemma {:induction false} FleetIsCurrent(select: Selector, actions: seq<Action>)
    requires LegalRun(select, actions)
    ensures Run(select, actions).fleet == Current(actions)
    decreases |actions|
  {
    if actions != [] { FleetIsCurrent(select, Front(actions)); }
  }

  /** Every writer holds exactly what its own actions gave it. */
  ghost predicate WriterIs(select: Selector, actions: seq<Action>, id: nat, w: Writer) {
    Drafted(actions, id, w.hash, DataOf(w)) && w.target == Target(select, actions, id)
  }

  lemma {:induction false} WriterIsItsActions(select: Selector, actions: seq<Action>, id: nat)
    requires LegalRun(select, actions) && id in Run(select, actions).writers
    ensures WriterIs(select, actions, id, Run(select, actions).writers[id])
    decreases |actions|
  {
    var a, front := Last(actions), Front(actions);
    if !(a.Open? && a.id == id) {
      WriterIsItsActions(select, front, id);
      FleetIsCurrent(select, front);
      if a.WriteBody? { FlattenSnoc(Chunks(front, id), a.chunk); }
    }
  }

  /** `finish` consumes its handler: after it there is none until another is opened. */
  lemma {:induction false} FinishConsumes(select: Selector, actions: seq<Action>, j: nat, id: nat)
    requires LegalRun(select, actions) && j < |actions| && actions[j].Set? && actions[j].id == id
    requires forall k: nat :: j < k < |actions| ==> !(actions[k].Open? && actions[k].id == id)
    ensures id !in Run(select, actions).writers
    decreases |actions|
  {
    if j < |actions| - 1 { FinishConsumes(select, Front(actions), j, id); }
  }

  // ---- Every backend is a register per hash ----

  /** `a`, after `before`, is a `set` of `d` under `h` that takes effect on backend `b`. */
  ghost predicate Writes(select: Selector, before: seq<Action>, a: Action, b: Backend, h: Hash, d: CacheData) {
    a.Set? && a.applied && Drafted(before, a.id, h, d) && Target(select, before, a.id) == Some(b)
  }

  /** `actions[k]` changes what backend `b` has for `h`. */
  ghost predicate Disturbs(select: Selector, actions: seq<Action>, k: nat, b: Backend, h: Hash)
    requires k < |actions|
  {
    actions[k] == Evict(b, h) || exists d :: Writes(select, actions[..k], actions[k], b, h, d)
  }

  /** `actions[j]` wrote `d` under `h` on `b`, and nothing later lost or overwrote it there. */
  ghost predicate LatestAt(select: Selector, actions: seq<Action>, j: nat, b: Backend, h: Hash, d: CacheData) {
    && j < |actions| && Writes(select, actions[..j], actions[j], b, h, d)
    && forall k: nat :: j < k < |actions| ==> !Disturbs(select, actions, k, b, h)
  }

  ghost predicate IsLatest(select: Selector, actions: seq<Action>, b: Backend, h: Hash, d: CacheData) {
    exists j: nat :: LatestAt(select, actions, j, b, h, d)
  }

  lemma DecodeWhole(d: CacheData)
    requires Fits(d)
    ensures Decode(Encode(d)) == Hit(d)
  {
    assert Encode(d) + [] == Encode(d);
    DecodeEncode(d, []);
  }

  lemma ReadAfterStep(select: Selector, s: State, a: Action, b: Backend, h: Hash)
    requires Enabled(s, a)
    ensures ReadAt(Step(select, s, a), b, h) ==
            if a == Evict(b, h) then Miss
            else if a.Set? && a.applied && s.writers[a.id].hash == h && s.writers[a.id].target == Some(b) then Found(DataOf(s.writers[a.id]))
            else ReadAt(s, b, h)
  {
    if a.Set? { DecodeWhole(DataOf(s.writers[a.id])); }
  }

  lemma ReadAfterLast(select: Selector, actions: seq<Action>, b: Backend, h: Hash)
    requires LegalRun(select, actions) && actions != []
    ensures var k := |actions| - 1;
            var r := ReadAt(Run(select, actions), b, h);
            && (!Disturbs(select, actions, k, b, h) ==> r == ReadAt(Run(select, Front(actions)), b, h))
            && (actions[k] == Evict(b, h) ==> r == Miss)
            && (forall d :: Writes(select, Front(actions), actions[k], b, h, d) ==> r == Found(d))
  {
    var a, front := Last(actions), Front(actions);
    var s := Run(select, front);
    ReadAfterStep(select, s, a, b, h);
    if a.Set? {
      WriterIsItsActions(select, front, a.id);
      if a.applied && s.writers[a.id].hash == h && s.writers[a.id].target == Some(b) {
        assert Writes(select, front, a, b, h, DataOf(s.writers[a.id]));
      }
    }
  }

  lemma DisturbsFront(select: Selector, actions: seq<Action>, k: nat, b: Backend, h: Hash)
    requires k < |actions| - 1
    ensures Disturbs(select, Front(actions), k, b, h) <==> Disturbs(select, actions, k, b, h)
  {
    assert Front(actions)[..k] == actions[..k];
  }

  lemma LatestAtFront(select: Selector, actions: seq<Action>, j: nat, b: Backend, h: Hash, d: CacheData)
    requires actions != [] && !Disturbs(select, actions, |actions| - 1, b, h)
    ensures LatestAt(select, actions, j, b, h, d) <==> LatestAt(select, Front(actions), j, b, h, d)
  {
    var front := Front(actions);
    forall k: nat | k < |front| ensures Disturbs(select, front, k, b, h) <==> Disturbs(select, actions, k, b, h) {
      DisturbsFront(select, actions, k, b, h);
    }
    if j < |front| { assert front[..j] == actions[..j]; }
  }

  lemma LatestKept(select: Selector, actions: seq<Action>, b: Backend, h: Hash, d: CacheData)
    requires actions != [] && !Disturbs(select, actions, |actions| - 1, b, h)
    ensures IsLatest(select, actions, b, h, d) <==> IsLatest(select, Front(actions), b, h, d)
  {
    forall j: nat ensures LatestAt(select, actions, j, b, h, d) <==> LatestAt(select, Front(actions), j, b, h, d) {
      LatestAtFront(select, actions, j, b, h, d);
    }
  }

  lemma LatestReplaced(select: Selector, actions: seq<Action>, b: Backend, h: Hash, d: CacheData)
    requires actions != [] && Disturbs(select, actions, |actions| - 1, b, h)
    ensures IsLatest(select, actions, b, h, d) <==> Writes(select, Front(actions), Last(actions), b, h, d)
  {
    var k := |actions| - 1;
    assert LatestAt(select, actions, k, b, h, d) <==> Writes(select, Front(actions), Last(actions), b, h, d);
  }

  lemma {:induction false} ReadIsLatest(select: Selector, actions: seq<Action>, b: Backend, h: Hash, d: CacheData)
    requires LegalRun(select, actions)
    ensures ReadAt(Run(select, actions), b, h) == Found(d) <==> IsLatest(select, actions, b, h, d)
    ensures ReadAt(Run(select, actions), b, h) != Corrupt
    decreases |actions|
  {
    if actions != [] {
      var k := |actions| - 1;
      ReadAfterLast(select, actions, b, h);
      ReadIsLatest(select, Front(actions), b, h, d);
      if Disturbs(select, actions, k, b, h) {
        LatestReplaced(select, actions, b, h, d);
      } else {
        LatestKept(select, actions, b, h, d);
      }
    }
  }

  /** Every backend is a register per hash: over every run with any membership changes, evictions,
      races and failed writes, a reader on it gets exactly the last write that took effect there and
      was not lost, with the metadata its handler was opened with and the chunks written to that
      handler in order; otherwise a miss, and never bytes it cannot decode. */
  lemma ReadsLatest(select: Selector, actions: seq<Action>, b: Backend, h: Hash)
    requires LegalRun(select, actions)
    ensures match ReadAt(Run(select, actions), b, h)
            case Found(d) => IsLatest(select, actions, b, h, d)
            case Miss => forall d :: !IsLatest(select, actions, b, h, d)
            case Corrupt => false
  {
    forall d ensures ReadAt(Run(select, actions), b, h) == Found(d) <==> IsLatest(select, actions, b, h, d) {
      ReadIsLatest(select, actions, b, h, d);
    }
    ReadIsLatest(select, actions, b, h, CacheData([], [], []));
  }

  /** The same for a lookup, which asks the pool that the membership in force gives the hash; without
      one it is a miss. */
  lemma LookupExact(select: Selector, actions: seq<Action>, h: Hash)
    requires LegalRun(select, actions)
    ensures var pool := PoolForHash(select, Current(actions), h);
            match Lookup(select, Run(select, actions), h)
            case Found(d) => pool.Some? && IsLatest(select, actions, pool.value, h, d)
            case Miss => pool.Some? ==> forall d :: !IsLatest(select, actions, pool.value, h, d)
            case Corrupt => false
  {
    FleetIsCurrent(select, actions);
    var pool := PoolForHash(select, Current(actions), h);
    if pool.Some? { ReadsLatest(select, actions, pool.value, h); }
  }

  /** A miss, or what an earlier `finish` of a handler opened for `h` stored. */
  ghost predicate MissOrFinished(actions: seq<Action>, h: Hash, r: LookupResult) {
    match r
    case Miss => true
    case Found(d) =>
      exists j: nat :: j < |actions| && actions[j].Set? && actions[j].applied && Drafted(actions[..j], actions[j].id, h, d)
    case Corrupt => false
  }

  /** In particular neither a reader on any backend nor a lookup ever gets anything else. */
  lemma LookupIsMissOrFinished(select: Selector, actions: seq<Action>, b: Backend, h: Hash)
    requires LegalRun(select, actions)
    ensures MissOrFinished(actions, h, ReadAt(Run(select, actions), b, h))
    ensures MissOrFinished(actions, h, Lookup(select, Run(select, actions), h))
  {
    ReadsLatest(select, actions, b, h);
    LookupExact(select, actions, h);
  }

  // ---- Read your latest write ----

  lemma {:induction false} SameFleet(actions: seq<Action>, j: nat)
    requires j <= |actions| && forall k: nat :: j <= k < |actions| ==> !actions[k].Membership?
    ensures Current(actions) == Current(actions[..j])
    decreases |actions|
  {
    if j < |actions| {
      assert Front(actions)[..j] == actions[..j];
      SameFleet(Front(actions), j);
    } else {
      assert actions[..j] == actions;
    }
  }

  /** Read your latest write: if the `set` at `j` takes effect on backend `b` and nothing later
      loses or overwrites it there, whatever else is written, lost or refused meanwhile, a lookup
      that is sent to `b` finds it. A lookup is sent there in particular if `b` was the pool of the
      hash and the membership stays as it is. */
  lemma LookupReturnsLatestWrite(select: Selector, actions: seq<Action>, j: nat, b: Backend, h: Hash, d: CacheData)
    requires LegalRun(select, actions) && LatestAt(select, actions, j, b, h, d)
    ensures PoolForHash(select, Current(actions), h) == Some(b) ==> Lookup(select, Run(select, actions), h) == Found(d)
    ensures PoolForHash(select, Current(actions[..j]), h) == Some(b) && (forall k: nat :: j <= k < |actions| ==> !actions[k].Membership?) ==>
              Lookup(select, Run(select, actions), h) == Found(d)
  {
    ReadIsLatest(select, actions, b, h, d);
    FleetIsCurrent(select, actions);
    if forall k: nat :: j <= k < |actions| ==> !actions[k].Membership? { SameFleet(actions, j); }
  }
}
