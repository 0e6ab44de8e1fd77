/** `resource_changes` (grcache-shared/src/resource_change.rs): a watch stream turned into the
    changes between what was seen before and what is there now. */
module ResourceChange {
  import opened Text
  import opened Resources

  datatype Event =
    | Init
    | InitApply(obj: Object)
    | InitDone
    | Apply(obj: Object)
    | Delete(obj: Object)
    | Error

  datatype Change = Ready | Applied(obj: Object) | Deleted(ref: ObjectRef) | Failed

  // ---- The transformer, on values ----

  datatype Differ = Differ(objects: map<ObjectRef, string>, initPresent: set<ObjectRef>)

  /** What `retain` drops at `InitDone`. */
  ghost function Swept(d: Differ): set<ObjectRef> { d.objects.Keys - d.initPresent }

  predicate Changed(d: Differ, o: Object) {
    o.ref !in d.objects || d.objects[o.ref] != o.version
  }

  function Advance(d: Differ, e: Event): Differ {
    match e
    case Init => d.(initPresent := {})
    case InitApply(o) => Differ(d.objects[o.ref := o.version], d.initPresent + {o.ref})
    case InitDone => Differ(map r | r in d.objects && r in d.initPresent :: d.objects[r], {})
    case Apply(o) => d.(objects := d.objects[o.ref := o.version])
    case Delete(o) => d.(objects := d.objects - {o.ref})
    case Error => d
  }

  function Deletions(refs: seq<ObjectRef>): seq<Change> {
    seq(|refs|, i requires 0 <= i < |refs| => Deleted(refs[i]))
  }

  /** The yields for one event; `order` is the order in which the hash map gave up its entries. */
  function Emitted(d: Differ, e: Event, order: seq<ObjectRef>): seq<Change> {
    match e
    case Init => []
    case InitApply(o) => if Changed(d, o) then [Applied(o)] else []
    case InitDone => Deletions(order) + [Ready]
    case Apply(o) => if Changed(d, o) then [Applied(o)] else []
    case Delete(o) => [Deleted(o.ref)]
    case Error => [Failed]
  }

  ghost predicate Enumeration(order: seq<ObjectRef>, refs: set<ObjectRef>) {
    && (forall r :: r in order <==> r in refs)
    && (forall i, j :: 0 <= i < j < |order| ==> order[i] != order[j])
  }

  /** `order` lists what the sweep of an `InitDone` dropped. */
  ghost predicate SweepOrder(d: Differ, e: Event, order: seq<ObjectRef>) {
    e.InitDone? ==> Enumeration(order, Swept(d))
  }

  /** What the changes for one event have to be, given the versions known before it and the
      references listed since the last `Init`: an apply exactly for a new or different version, a
      delete exactly for what a Delete event names or a finished listing lacks, `Ready` exactly at
      the end of a listing and after its deletes, an error exactly for an error, nothing twice. */
  ghost predicate Announces(known: map<ObjectRef, string>, listed: set<ObjectRef>, e: Event, out: seq<Change>) {
    && (forall o :: Applied(o) in out <==>
          (e == InitApply(o) || e == Apply(o)) && (o.ref !in known || known[o.ref] != o.version))
    && (forall r :: Deleted(r) in out <==>
          (e.Delete? && e.obj.ref == r) || (e.InitDone? && r in known && r !in listed))
    && (Ready in out <==> e.InitDone?)
    && (Ready in out ==> out[|out| - 1] == Ready)
    && (Failed in out <==> e.Error?)
    && (forall i, j :: 0 <= i < j < |out| ==> out[i] != out[j])
  }

  lemma EmittedAnnounces(d: Differ, e: Event, order: seq<ObjectRef>)
    requires SweepOrder(d, e, order)
    ensures Announces(d.objects, d.initPresent, e, Emitted(d, e, order))
  {
    if e.InitDone? {
      var out := Emitted(d, e, order);
      forall r ensures Deleted(r) in out <==> r in order {
        if r in order {
          var i :| 0 <= i < |order| && order[i] == r;
          assert out[i] == Deleted(r);
        }
      }
      assert out[|order|] == Ready;
    }
  }

  // ---- The transformer, in place ----

  class ResourceChanges {
    var objects: map<ObjectRef, string>
    var initPresent: set<ObjectRef>

    ghost function View(): Differ
      reads this
    {
      Differ(objects, initPresent)
    }

    constructor ()
      ensures View() == Differ(map[], {})
    {
      objects := map[];
      initPresent := {};
    }

    method Upsert(o: Object) returns (changes: seq<Change>)
      modifies this`objects
      ensures objects == old(objects)[o.ref := o.version]
      ensures changes == if Changed(old(View()), o) then [Applied(o)] else []
    {
      if o.ref in objects && objects[o.ref] == o.version {
        assert objects == objects[o.ref := o.version];
        changes := [];
      } else {
        objects := objects[o.ref := o.version];
        changes := [Applied(o)];
      }
    }

    method Sweep() returns (removed: seq<ObjectRef>)
      modifies this`objects
      ensures Enumeration(removed, Swept(old(View())))
      ensures objects == Advance(old(View()), InitDone).objects
    {
      removed := [];
      var rest := objects.Keys;
      ghost var before := objects;
      while rest != {}
        invariant rest <= before.Keys
        invariant forall r :: r in removed <==> r in before && r !in rest && r !in initPresent
        invariant forall i, j :: 0 <= i < j < |removed| ==> removed[i] != removed[j]
        invariant forall r :: r in objects <==> r in before && (r in rest || r in initPresent)
        invariant forall r :: r in objects ==> objects[r] == before[r]
        decreases rest
      {
        var r :| r in rest;
        rest := rest - {r};
        if r !in initPresent {
          objects := objects - {r};
          removed := removed + [r];
        }
      }
    }

    method Handle(e: Event) returns (changes: seq<Change>)
      modifies this
      ensures View() == Advance(old(View()), e)
      ensures exists order :: SweepOrder(old(View()), e, order) && changes == Emitted(old(View()), e, order)
      ensures Announces(old(objects), old(initPresent), e, changes)
    {
      ghost var order: seq<ObjectRef> := [];
      match e {
        case Init => initPresent := {}; changes := [];
        case InitApply(o) => initPresent := initPresent + {o.ref}; changes := Upsert(o);
        case InitDone =>
          var removed := Sweep();
          initPresent := {};
          changes := Deletions(removed) + [Ready];
          order := removed;
        case Apply(o) => changes := Upsert(o);
        case Delete(o) => objects := objects - {o.ref}; changes := [Deleted(o.ref)];
        case Error => changes := [Failed];
      }
      assert SweepOrder(old(View()), e, order) && changes == Emitted(old(View()), e, order);
      EmittedAnnounces(old(View()), e, order);
    }
  }

  // ---- The reference: what the watch says exists ----

  /** `pending` holds the objects of an initial listing that is still in progress. */
  datatype Watch = Watch(objects: map<ObjectRef, Object>, pending: Option<map<ObjectRef, Object>>)

  /** A listing may be restarted at any time, and no Apply or Delete falls inside one. */
  predicate WellFormed(w: Watch, e: Event) {
    match e
    case Init => true
    case InitApply(_) => w.pending.Some?
    case InitDone => w.pending.Some?
    case Apply(_) => w.pending.None?
    case Delete(_) => w.pending.None?
    case Error => true
  }

  function Observe(w: Watch, e: Event): Watch
    requires WellFormed(w, e)
  {
    match e
    case Init => w.(pending := Some(map[]))
    case InitApply(o) => w.(pending := Some(w.pending.value[o.ref := o]))
    case InitDone => Watch(w.pending.value, None)
    case Apply(o) => w.(objects := w.objects[o.ref := o])
    case Delete(o) => w.(objects := w.objects - {o.ref})
    case Error => w
  }

  // ---- Folding the changes ----

  function Absorb(m: map<ObjectRef, Object>, c: Change): map<ObjectRef, Object> {
    match c
    case Applied(o) => m[o.ref := o]
    case Deleted(r) => m - {r}
    case Ready => m
    case Failed => m
  }

  function Fold(m: map<ObjectRef, Object>, cs: seq<Change>): map<ObjectRef, Object>
    decreases |cs|
  {
    if cs == [] then m else Fold(Absorb(m, cs[0]), cs[1..])
  }

  lemma {:induction false} FoldDeletions(m: map<ObjectRef, Object>, refs: seq<ObjectRef>)
    ensures Fold(m, Deletions(refs) + [Ready]) == map r | r in m && r !in refs :: m[r]
    decreases |refs|
  {
    var cs := Deletions(refs) + [Ready];
    if refs == [] {
      assert cs == [Ready] && cs[1..] == [];
      assert Fold(m, cs) == Fold(m, []);
    } else {
      assert cs[1..] == Deletions(refs[1..]) + [Ready];
      FoldDeletions(m - {refs[0]}, refs[1..]);
    }
  }

  lemma FoldOne(m: map<ObjectRef, Object>, c: Change)
    ensures Fold(m, [c]) == Absorb(m, c)
  {
    assert [c][1..] == [];
  }

  // ---- The fold refines the watch ----

  ghost predicate Keyed(m: map<ObjectRef, Object>) { forall r :: r in m ==> m[r].ref == r }

  ghost predicate SameVersions(m: map<ObjectRef, Object>, versions: map<ObjectRef, string>) {
    && m.Keys == versions.Keys
    && forall r :: r in m ==> m[r].version == versions[r]
  }

  /** `f` is the fold of every change emitted so far. */
  ghost predicate Tracks(w: Watch, d: Differ, f: map<ObjectRef, Object>) {
    && Keyed(w.objects) && Keyed(f) && SameVersions(f, d.objects)
    && match w.pending
       case None => SameVersions(w.objects, d.objects)
       case Some(p) =>
         && Keyed(p) && d.initPresent == p.Keys
         && forall r :: r in p ==> r in d.objects && d.objects[r] == p[r].version
  }

  lemma FoldUpsert(d: Differ, f: map<ObjectRef, Object>, o: Object)
    requires Keyed(f) && SameVersions(f, d.objects)
    ensures var f' := Fold(f, if Changed(d, o) then [Applied(o)] else []);
            Keyed(f') && SameVersions(f', d.objects[o.ref := o.version])
  {
    if Changed(d, o) { FoldOne(f, Applied(o)); } else { assert Fold(f, []) == f; }
  }

  lemma TracksApply(w: Watch, d: Differ, f: map<ObjectRef, Object>, e: Event)
    requires Tracks(w, d, f) && WellFormed(w, e) && e.Apply?
    ensures Tracks(Observe(w, e), Advance(d, e), Fold(f, Emitted(d, e, [])))
  {
    FoldUpsert(d, f, e.obj);
  }

  lemma TracksListed(w: Watch, d: Differ, f: map<ObjectRef, Object>, e: Event)
    requires Tracks(w, d, f) && WellFormed(w, e) && e.InitApply?
    ensures Tracks(Observe(w, e), Advance(d, e), Fold(f, Emitted(d, e, [])))
  {
    FoldUpsert(d, f, e.obj);
  }

  lemma TracksSweep(w: Watch, d: Differ, f: map<ObjectRef, Object>, order: seq<ObjectRef>)
    requires Tracks(w, d, f) && w.pending.Some? && Enumeration(order, Swept(d))
    ensures Tracks(Observe(w, InitDone), Advance(d, InitDone), Fold(f, Emitted(d, InitDone, order)))
  {
    FoldDeletions(f, order);
  }

  lemma TracksStep(w: Watch, d: Differ, f: map<ObjectRef, Object>, e: Event, order: seq<ObjectRef>)
    requires Tracks(w, d, f) && WellFormed(w, e) && SweepOrder(d, e, order)
    ensures Tracks(Observe(w, e), Advance(d, e), Fold(f, Emitted(d, e, order)))
  {
    match e {
      case Init => assert Fold(f, []) == f;
      case InitApply(_) => TracksListed(w, d, f, e);
      case InitDone => TracksSweep(w, d, f, order);
      case Apply(_) => TracksApply(w, d, f, e);
      case Delete(o) => FoldOne(f, Deleted(o.ref));
      case Error => FoldOne(f, Failed);
    }
  }

  // ---- An object's reference and resource version determine its content ----

  type World = (ObjectRef, string) -> ObjectSpec

  ghost predicate Genuine(world: World, o: Object) { o.spec == world(o.ref, o.version) }

  ghost predicate AllGenuine(world: World, m: map<ObjectRef, Object>) {
    forall r :: r in m ==> Genuine(world, m[r])
  }

  ghost predicate GenuineWatch(world: World, w: Watch) {
    AllGenuine(world, w.objects) && (w.pending.Some? ==> AllGenuine(world, w.pending.value))
  }

  ghost predicate GenuineEvent(world: World, e: Event) {
    (e.InitApply? || e.Apply?) ==> Genuine(world, e.obj)
  }

  ghost predicate GenuineChange(world: World, c: Change) {
    c.Applied? ==> Genuine(world, c.obj)
  }

  lemma SameVersionsSameObjects(world: World, a: map<ObjectRef, Object>, b: map<ObjectRef, Object>, versions: map<ObjectRef, string>)
    requires Keyed(a) && Keyed(b) && AllGenuine(world, a) && AllGenuine(world, b)
    requires SameVersions(a, versions) && SameVersions(b, versions)
    ensures a == b
  {
    forall r | r in a ensures a[r] == b[r] {
      assert Genuine(world, a[r]) && Genuine(world, b[r]);
    }
  }

  lemma {:induction false} FoldGenuine(world: World, m: map<ObjectRef, Object>, cs: seq<Change>)
    requires AllGenuine(world, m) && forall i :: 0 <= i < |cs| ==> GenuineChange(world, cs[i])
    ensures AllGenuine(world, Fold(m, cs))
    decreases |cs|
  {
    if cs != [] {
      assert GenuineChange(world, cs[0]);
      FoldGenuine(world, Absorb(m, cs[0]), cs[1..]);
    }
  }

  /** Outside an initial listing the fold is the watch's object set. */
  lemma TracksIsEquality(world: World, w: Watch, d: Differ, f: map<ObjectRef, Object>)
    requires Tracks(w, d, f) && w.pending.None? && AllGenuine(world, w.objects) && AllGenuine(world, f)
    ensures f == w.objects
  {
    SameVersionsSameObjects(world, f, w.objects, d.objects);
  }

  // ---- Whole runs of the transformer ----

  datatype Input = Input(event: Event, order: seq<ObjectRef>)
  datatype Replay = Replay(watch: Watch, differ: Differ, changes: seq<Change>)

  const START := Replay(Watch(map[], None), Differ(map[], {}), [])

  function Feed(r: Replay, i: Input): Replay
    requires WellFormed(r.watch, i.event)
  {
    Replay(Observe(r.watch, i.event), Advance(r.differ, i.event), r.changes + Emitted(r.differ, i.event, i.order))
  }

  ghost predicate LegalInputs(r: Replay, inputs: seq<Input>)
    decreases |inputs|
  {
    inputs == [] ||
    (&& WellFormed(r.watch, inputs[0].event)
     && SweepOrder(r.differ, inputs[0].event, inputs[0].order)
     && LegalInputs(Feed(r, inputs[0]), inputs[1..]))
  }

  ghost function FeedAll(r: Replay, inputs: seq<Input>): Replay
    requires LegalInputs(r, inputs)
    decreases |inputs|
  {
    if inputs == [] then r else FeedAll(Feed(r, inputs[0]), inputs[1..])
  }

  lemma {:induction false} FoldConcat(m: map<ObjectRef, Object>, a: seq<Change>, b: seq<Change>)
    ensures Fold(m, a + b) == Fold(Fold(m, a), b)
    decreases |a|
  {
    if a == [] { assert a + b == b; } else {
      assert (a + b)[1..] == a[1..] + b;
      FoldConcat(Absorb(m, a[0]), a[1..], b);
    }
  }

  lemma {:induction false} TracksRun(r: Replay, inputs: seq<Input>)
    requires Tracks(r.watch, r.differ, Fold(map[], r.changes)) && LegalInputs(r, inputs)
    ensures var r' := FeedAll(r, inputs); Tracks(r'.watch, r'.differ, Fold(map[], r'.changes))
    decreases |inputs|
  {
    if inputs != [] {
      var i := inputs[0];
      TracksStep(r.watch, r.differ, Fold(map[], r.changes), i.event, i.order);
      FoldConcat(map[], r.changes, Emitted(r.differ, i.event, i.order));
      TracksRun(Feed(r, i), inputs[1..]);
    }
  }

  lemma {:induction false} GenuineRun(world: World, r: Replay, inputs: seq<Input>)
    requires GenuineWatch(world, r.watch) && AllGenuine(world, Fold(map[], r.changes)) && LegalInputs(r, inputs)
    requires forall i :: 0 <= i < |inputs| ==> GenuineEvent(world, inputs[i].event)
    ensures var r' := FeedAll(r, inputs);
            GenuineWatch(world, r'.watch) && AllGenuine(world, Fold(map[], r'.changes))
    decreases |inputs|
  {
    if inputs != [] {
      var i := inputs[0];
      assert GenuineEvent(world, i.event);
      var out := Emitted(r.differ, i.event, i.order);
      FoldConcat(map[], r.changes, out);
      FoldGenuine(world, Fold(map[], r.changes), out);
      GenuineRun(world, Feed(r, i), inputs[1..]);
    }
  }

  /** Folding the emitted changes from the empty map gives, after every well-formed stream with
      any number of aborted and restarted listings, the keys and versions of `objects`; and
      whenever no listing is in progress it is exactly the watch's object set. */
  lemma FoldRefinesWatch(world: World, inputs: seq<Input>)
    requires LegalInputs(START, inputs)
    ensures var r := FeedAll(START, inputs);
            && SameVersions(Fold(map[], r.changes), r.differ.objects)
            && (r.watch.pending.None? && (forall i :: 0 <= i < |inputs| ==> GenuineEvent(world, inputs[i].event)) ==>
                  Fold(map[], r.changes) == r.watch.objects)
  {
    var r := FeedAll(START, inputs);
    TracksRun(START, inputs);
    if r.watch.pending.None? && forall i :: 0 <= i < |inputs| ==> GenuineEvent(world, inputs[i].event) {
      GenuineRun(world, START, inputs);
      TracksIsEquality(world, r.watch, r.differ, Fold(map[], r.changes));
    }
  }

  // ---- Exactly which changes are emitted ----

  ghost function VersionsOf(m: map<ObjectRef, Object>): map<ObjectRef, string> { map r | r in m :: m[r].version }

  ghost function Listed(w: Watch): set<ObjectRef> { if w.pending.Some? then w.pending.value.Keys else {} }

  lemma {:induction false} FeedSnoc(r: Replay, inputs: seq<Input>, i: Input)
    requires LegalInputs(r, inputs + [i])
    ensures LegalInputs(r, inputs)
    ensures var mid := FeedAll(r, inputs);
            && WellFormed(mid.watch, i.event) && SweepOrder(mid.differ, i.event, i.order)
            && FeedAll(r, inputs + [i]) == Feed(mid, i)
    decreases |inputs|
  {
    if inputs == [] {
      assert [] + [i] == [i] && [i][1..] == [];
      assert FeedAll(r, [i]) == FeedAll(Feed(r, i), []);
    } else {
      assert (inputs + [i])[0] == inputs[0] && (inputs + [i])[1..] == inputs[1..] + [i];
      FeedSnoc(Feed(r, inputs[0]), inputs[1..], i);
    }
  }

  /** After every stream the next event adds exactly the right changes, judged by the fold of the
      changes emitted before and by what the watch has listed since its last `Init`. */
  lemma OutputExact(inputs: seq<Input>, i: Input)
    requires LegalInputs(START, inputs + [i])
    ensures LegalInputs(START, inputs)
    ensures var r, r' := FeedAll(START, inputs), FeedAll(START, inputs + [i]);
            && r.changes <= r'.changes
            && Announces(VersionsOf(Fold(map[], r.changes)), Listed(r.watch), i.event, r'.changes[|r.changes|..])
  {
    FeedSnoc(START, inputs, i);
    TracksRun(START, inputs);
    var r, r' := FeedAll(START, inputs), FeedAll(START, inputs + [i]);
    assert VersionsOf(Fold(map[], r.changes)) == r.differ.objects;
    EmittedAnnounces(r.differ, i.event, i.order);
    assert r'.changes[|r.changes|..] == Emitted(r.differ, i.event, i.order);
  }

  ghost function ListingsDone(inputs: seq<Input>): nat {
    if inputs == [] then 0
    else ListingsDone(inputs[..|inputs| - 1]) + if inputs[|inputs| - 1].event.InitDone? then 1 else 0
  }

  lemma OneReady(out: seq<Change>)
    requires Ready in out ==> out[|out| - 1] == Ready
    requires forall i, j :: 0 <= i < j < |out| ==> out[i] != out[j]
    ensures multiset(out)[Ready] == if Ready in out then 1 else 0
  {
    if Ready in out {
      var front := out[..|out| - 1];
      assert out == front + [Ready];
      assert Ready !in front;
    }
  }

  /** Over every stream there are as many `Ready` as completed listings. */
  lemma {:induction false} ReadyPerListing(inputs: seq<Input>)
    requires LegalInputs(START, inputs)
    ensures multiset(FeedAll(START, inputs).changes)[Ready] == ListingsDone(inputs)
    decreases |inputs|
  {
    if inputs != [] {
      var front, i := inputs[..|inputs| - 1], inputs[|inputs| - 1];
      assert inputs == front + [i];
      OutputExact(front, i);
      ReadyPerListing(front);
      var before, after := FeedAll(START, front).changes, FeedAll(START, inputs).changes;
      assert after == before + after[|before|..];
      OneReady(after[|before|..]);
    }
  }

  // ---- What the watch says, read off the events ----

  /** The object of reference `ref` in the listing that the last `Init` began. */
  ghost function LastListed(inputs: seq<Input>, ref: ObjectRef): Option<Object> {
    if inputs == [] then None
    else
      var e, front := inputs[|inputs| - 1].event, inputs[..|inputs| - 1];
      if e.Init? then None
      else if e.InitApply? && e.obj.ref == ref then Some(e.obj)
      else LastListed(front, ref)
  }

  /** The object of reference `ref` that exists by the last word on it: an Apply, a Delete, or a
      listing that was completed. */
  ghost function LastWord(inputs: seq<Input>, ref: ObjectRef): Option<Object> {
    if inputs == [] then None
    else
      var e, front := inputs[|inputs| - 1].event, inputs[..|inputs| - 1];
      if e.Apply? && e.obj.ref == ref then Some(e.obj)
      else if e.Delete? && e.obj.ref == ref then None
      else if e.InitDone? then LastListed(front, ref)
      else LastWord(front, ref)
  }

  ghost function At(m: map<ObjectRef, Object>, ref: ObjectRef): Option<Object> { if ref in m then Some(m[ref]) else None }

  lemma {:induction false} WatchIsLastWord(inputs: seq<Input>, ref: ObjectRef)
    requires LegalInputs(START, inputs)
    ensures var w := FeedAll(START, inputs).watch;
            && At(w.objects, ref) == LastWord(inputs, ref)
            && (w.pending.Some? ==> At(w.pending.value, ref) == LastListed(inputs, ref))
    decreases |inputs|
  {
    if inputs != [] {
      var front, i := inputs[..|inputs| - 1], inputs[|inputs| - 1];
      assert inputs == front + [i];
      FeedSnoc(START, front, i);
      WatchIsLastWord(front, ref);
    }
  }

  /** End to end: outside a listing the fold of the emitted changes holds for each reference
      exactly the object that the last word of the events on it leaves. */
  lemma FoldIsLastWord(world: World, inputs: seq<Input>, ref: ObjectRef)
    requires LegalInputs(START, inputs) && FeedAll(START, inputs).watch.pending.None?
    requires forall i :: 0 <= i < |inputs| ==> GenuineEvent(world, inputs[i].event)
    ensures At(Fold(map[], FeedAll(START, inputs).changes), ref) == LastWord(inputs, ref)
  {
    FoldRefinesWatch(world, inputs);
    WatchIsLastWord(inputs, ref);
  }

  // ---- Nothing is emitted twice ----

  /** Every emitted change but the answer to a Delete event is one: an applied object is new or has
      another version than the fold holds, and a swept reference is in the fold. */
  lemma EmittedChangesAreNews(w: Watch, d: Differ, f: map<ObjectRef, Object>, e: Event, order: seq<ObjectRef>, c: Change)
    requires Tracks(w, d, f) && SweepOrder(d, e, order) && c in Emitted(d, e, order)
    ensures c.Applied? ==> c.obj.ref !in f || f[c.obj.ref].version != c.obj.version
    ensures c.Deleted? && !e.Delete? ==> c.ref in f
  {
    if e.InitDone? && c.Deleted? {
      assert c in Deletions(order);
      assert c.ref in order;
    }
  }

  function Relist(os: seq<Object>): (inputs: seq<Input>)
    ensures |inputs| == |os|
  {
    seq(|os|, i requires 0 <= i < |os| => Input(InitApply(os[i]), []))
  }

  lemma {:induction false} FeedConcat(r: Replay, x: seq<Input>, y: seq<Input>)
    requires LegalInputs(r, x) && LegalInputs(FeedAll(r, x), y)
    ensures LegalInputs(r, x + y) && FeedAll(r, x + y) == FeedAll(FeedAll(r, x), y)
    decreases |x|
  {
    if x == [] { assert x + y == y; } else {
      assert (x + y)[0] == x[0] && (x + y)[1..] == x[1..] + y;
      FeedConcat(Feed(r, x[0]), x[1..], y);
    }
  }

  lemma {:induction false} KnownObjectsAreSilent(r: Replay, os: seq<Object>)
    requires r.watch.pending.Some?
    requires forall o :: o in os ==> o.ref in r.differ.objects && r.differ.objects[o.ref] == o.version
    ensures LegalInputs(r, Relist(os))
    ensures var r' := FeedAll(r, Relist(os));
            && r'.watch.pending.Some? && r'.changes == r.changes && r'.differ.objects == r.differ.objects
            && r'.differ.initPresent == r.differ.initPresent + (set o | o in os :: o.ref)
    decreases |os|
  {
    if os != [] {
      var r1 := Feed(r, Relist(os)[0]);
      assert os[0] in os;
      assert r1.changes == r.changes && r1.differ.objects == r.differ.objects;
      assert Relist(os)[1..] == Relist(os[1..]);
      KnownObjectsAreSilent(r1, os[1..]);
      assert (set o | o in os :: o.ref) == {os[0].ref} + (set o | o in os[1..] :: o.ref) by {
        assert os == [os[0]] + os[1..];
      }
    }
  }

  /** A reconnect that lists exactly what is already known, in any order and with repeats, emits
      nothing but `Ready`, so it reloads no service. */
  lemma RelistIsSilent(r: Replay, os: seq<Object>)
    requires forall o :: o in os ==> o.ref in r.differ.objects && r.differ.objects[o.ref] == o.version
    requires forall ref :: ref in r.differ.objects ==> exists o :: o in os && o.ref == ref
    ensures var inputs := [Input(Init, [])] + Relist(os) + [Input(InitDone, [])];
            && LegalInputs(r, inputs)
            && FeedAll(r, inputs).changes == r.changes + [Ready]
            && FeedAll(r, inputs).differ.objects == r.differ.objects
  {
    var r1 := Feed(r, Input(Init, []));
    assert r1.changes == r.changes;
    assert LegalInputs(r1, []) && FeedAll(r1, []) == r1;
    assert [Input(Init, [])][1..] == [];
    assert LegalInputs(r, [Input(Init, [])]) && FeedAll(r, [Input(Init, [])]) == r1;
    KnownObjectsAreSilent(r1, os);
    var r2 := FeedAll(r1, Relist(os));
    assert Swept(r2.differ) == {};
    assert Enumeration([], Swept(r2.differ));
    var r3 := Feed(r2, Input(InitDone, []));
    assert r3.changes == r2.changes + [Ready];
    assert LegalInputs(r3, []) && FeedAll(r3, []) == r3;
    assert [Input(InitDone, [])][1..] == [];
    assert LegalInputs(r2, [Input(InitDone, [])]) && FeedAll(r2, [Input(InitDone, [])]) == r3;
    FeedConcat(r, [Input(Init, [])], Relist(os));
    FeedConcat(r, [Input(Init, [])] + Relist(os), [Input(InitDone, [])]);
    assert r3.differ.objects == r.differ.objects;
  }
}
