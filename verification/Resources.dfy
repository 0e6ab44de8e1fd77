/** The `GrcacheService` objects and their references. */
module Resources {
  import opened Text

  /** kube's `ObjectRef`: identity is the namespace and the name. */
  datatype ObjectRef = ObjectRef(namespace: Option<string>, name: string)

  datatype Upstream = Dns(url: string, port: nat)

  datatype ObjectSpec = ObjectSpec(serviceName: string, upstream: Upstream, descriptorSetSource: Option<string>)

  datatype Object = Object(ref: ObjectRef, version: string, spec: ObjectSpec)

  // ---- The order `min_by_key(|v| (&v.namespace, &v.name))` uses ----

  predicate NamespaceLess(a: Option<string>, b: Option<string>) {
    b.Some? && (a.None? || Less(a.value, b.value))
  }

  predicate RefLess(a: ObjectRef, b: ObjectRef) {
    NamespaceLess(a.namespace, b.namespace) || (a.namespace == b.namespace && Less(a.name, b.name))
  }

  /** The same order without recursion: an object without a namespace comes first, then the
      namespaces decide in dictionary order, then the names. */
  ghost predicate RefPrecedes(a: ObjectRef, b: ObjectRef) {
    if a.namespace == b.namespace then Precedes(a.name, b.name)
    else a.namespace.None? || (b.namespace.Some? && Precedes(a.namespace.value, b.namespace.value))
  }

  lemma RefLessIsPrecedes(a: ObjectRef, b: ObjectRef)
    ensures RefLess(a, b) <==> RefPrecedes(a, b)
  {
    LessIsPrecedes(a.name, b.name);
    if a.namespace.Some? && b.namespace.Some? {
      LessIsPrecedes(a.namespace.value, b.namespace.value);
      LessIrreflexive(a.namespace.value);
    }
  }

  lemma RefLessTransitive(a: ObjectRef, b: ObjectRef, c: ObjectRef)
    requires RefLess(a, b) && RefLess(b, c)
    ensures RefLess(a, c)
  {
    if NamespaceLess(a.namespace, b.namespace) && NamespaceLess(b.namespace, c.namespace) {
      if a.namespace.Some? { LessTransitive(a.namespace.value, b.namespace.value, c.namespace.value); }
    } else if a.namespace == b.namespace == c.namespace {
      LessTransitive(a.name, b.name, c.name);
    }
  }

  lemma RefLessConnected(a: ObjectRef, b: ObjectRef)
    ensures a == b || RefLess(a, b) || RefLess(b, a)
  {
    LessConnected(a.name, b.name);
    if a.namespace.Some? && b.namespace.Some? { LessConnected(a.namespace.value, b.namespace.value); }
  }

  lemma RefLessIrreflexive(a: ObjectRef)
    ensures !RefLess(a, a)
  {
    LessIrreflexive(a.name);
    if a.namespace.Some? { LessIrreflexive(a.namespace.value); }
  }

  ghost predicate IsLeast(r: ObjectRef, refs: set<ObjectRef>) {
    r in refs && forall x :: x in refs ==> x == r || RefLess(r, x)
  }

  lemma LeastUnique(r: ObjectRef, r': ObjectRef, refs: set<ObjectRef>)
    requires IsLeast(r, refs) && IsLeast(r', refs)
    ensures r == r'
  {
    if r != r' {
      RefLessTransitive(r, r', r);
      RefLessIrreflexive(r);
    }
  }

  /** The deterministic choice among duplicates, iterating the hash set in whatever order it
      yields its elements. */
  method ElectIn(refs: set<ObjectRef>) returns (r: ObjectRef)
    requires refs != {}
    ensures IsLeast(r, refs)
    ensures forall x :: x in refs && x != r ==> RefPrecedes(r, x)
  {
    r :| r in refs;
    var rest := refs - {r};
    while rest != {}
      invariant rest <= refs && IsLeast(r, refs - rest)
      decreases rest
    {
      var x :| x in rest;
      RefLessConnected(r, x);
      if RefLess(x, r) {
        forall y | y in refs - rest && y != r ensures RefLess(x, y) { RefLessTransitive(x, r, y); }
        r := x;
      }
      rest := rest - {x};
    }
    assert refs - rest == refs;
    forall x | x in refs && x != r ensures RefPrecedes(r, x) { RefLessIsPrecedes(r, x); }
  }

  lemma {:induction false} LeastExists(refs: set<ObjectRef>)
    requires refs != {}
    ensures exists r :: IsLeast(r, refs)
    decreases refs
  {
    var x :| x in refs;
    if refs == {x} {
      assert IsLeast(x, refs);
    } else {
      LeastExists(refs - {x});
      var m :| IsLeast(m, refs - {x});
      RefLessConnected(x, m);
      if RefLess(x, m) {
        forall y | y in refs && y != x && y != m ensures RefLess(x, y) { RefLessTransitive(x, m, y); }
        assert IsLeast(x, refs);
      } else {
        assert IsLeast(m, refs);
      }
    }
  }

  ghost function Elect(refs: set<ObjectRef>): (r: ObjectRef)
    requires refs != {}
    ensures IsLeast(r, refs)
  {
    LeastExists(refs);
    var r :| IsLeast(r, refs); r
  }

  lemma ElectIs(r: ObjectRef, refs: set<ObjectRef>)
    requires IsLeast(r, refs)
    ensures Elect(refs) == r
  {
    LeastUnique(r, Elect(refs), refs);
  }

  /** The elected reference is in dictionary order before every other one. */
  lemma ElectIsFirst(refs: set<ObjectRef>, r: ObjectRef)
    requires refs != {}
    ensures Elect(refs) == r <==> r in refs && forall x :: x in refs && x != r ==> RefPrecedes(r, x)
  {
    forall x, y ensures RefLess(x, y) <==> RefPrecedes(x, y) { RefLessIsPrecedes(x, y); }
    if r in refs && forall x :: x in refs && x != r ==> RefPrecedes(r, x) { ElectIs(r, refs); }
  }

  /** Taking away a loser does not change the election. */
  lemma ElectWithout(refs: set<ObjectRef>, r: ObjectRef)
    requires refs != {} && r != Elect(refs)
    ensures refs - {r} != {} && Elect(refs - {r}) == Elect(refs)
  {
    assert Elect(refs) in refs - {r};
    ElectIs(Elect(refs), refs - {r});
  }

  // ---- What a set of objects says about a service name ----

  ghost function RefsOf(objects: map<ObjectRef, Object>, name: string): set<ObjectRef> {
    set r | r in objects && objects[r].spec.serviceName == name
  }

  /** The object that should serve `name`: the least one that declares it. */
  ghost function Elected(objects: map<ObjectRef, Object>, name: string): Option<Object> {
    var refs := RefsOf(objects, name);
    if refs == {} then None else Some(objects[Elect(refs)])
  }
}
