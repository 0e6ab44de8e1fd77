/** Strings and byte strings as the Rust code sees them: lexicographic order, splitting on a
    separator, and the ascending enumeration of a `BTreeSet`. */
module Text {

  /** A byte is the character with its code; `Bytes` is Rust's `[u8]`. */
  type byte = c: char | c as int < 256 witness 'a'
  type Bytes = seq<byte>

  datatype Option<+T> = None | Some(value: T)
  datatype Result<+T, +E> = Ok(value: T) | Err(error: E)

  // ---- Lexicographic order (Rust's `Ord` on strings) ----

  predicate Less(a: string, b: string) {
    if a == [] || b == [] then a == [] && b != []
    else a[0] < b[0] || (a[0] == b[0] && Less(a[1..], b[1..]))
  }

  /** `a` and `b` agree below `k` and `a` has the lower character there. */
  ghost predicate LowerAt(a: string, b: string, k: nat) {
    k < |a| && k < |b| && a[..k] == b[..k] && a[k] < b[k]
  }

  /** Dictionary order: a proper prefix, or lower at the first difference. */
  ghost predicate Precedes(a: string, b: string) {
    (|a| < |b| && b[..|a|] == a) || exists k: nat :: LowerAt(a, b, k)
  }

  lemma LowerAtShift(a: string, b: string, k: nat)
    requires a != [] && b != [] && a[0] == b[0]
    ensures LowerAt(a, b, k + 1) <==> LowerAt(a[1..], b[1..], k)
  {
    if k < |a| - 1 && k < |b| - 1 {
      assert a[..k + 1] == [a[0]] + a[1..][..k] && b[..k + 1] == [b[0]] + b[1..][..k];
    }
  }

  lemma PrecedesShift(a: string, b: string)
    requires a != [] && b != [] && a[0] == b[0]
    ensures Precedes(a, b) <==> Precedes(a[1..], b[1..])
  {
    if |a| < |b| {
      assert a == [a[0]] + a[1..] && b[..|a|] == [b[0]] + b[1..][..|a| - 1];
      assert b[..|a|] == a <==> b[1..][..|a| - 1] == a[1..];
    }
    if k: nat :| LowerAt(a, b, k) {
      LowerAtShift(a, b, k - 1);
    }
    if k: nat :| LowerAt(a[1..], b[1..], k) {
      LowerAtShift(a, b, k);
      assert LowerAt(a, b, k + 1);
    }
  }

  lemma {:induction false} LessIsPrecedes(a: string, b: string)
    ensures Less(a, b) <==> Precedes(a, b)
  {
    if a != [] && b != [] {
      assert LowerAt(a, b, 0) <==> a[0] < b[0];
      if a[0] == b[0] {
        LessIsPrecedes(a[1..], b[1..]);
        PrecedesShift(a, b);
      } else {
        forall k: nat | 0 < k < |a| && k < |b| ensures a[..k] != b[..k] {
          assert a[..k][0] == a[0] && b[..k][0] == b[0];
        }
        if |a| < |b| { assert b[..|a|][0] == b[0]; }
      }
    }
  }

  lemma {:induction false} LessIrreflexive(a: string)
    ensures !Less(a, a)
  {
    if a != [] { LessIrreflexive(a[1..]); }
  }

  lemma {:induction false} LessTransitive(a: string, b: string, c: string)
    requires Less(a, b) && Less(b, c)
    ensures Less(a, c)
  {
    if a != [] && a[0] == b[0] == c[0] { LessTransitive(a[1..], b[1..], c[1..]); }
  }

  lemma {:induction false} LessConnected(a: string, b: string)
    ensures a == b || Less(a, b) || Less(b, a)
  {
    if a != [] && b != [] && a[0] == b[0] {
      LessConnected(a[1..], b[1..]);
      assert a == [a[0]] + a[1..] && b == [b[0]] + b[1..];
    }
  }

  // ---- BTreeSet iteration ----

  ghost predicate StrictlyAscending(s: seq<Bytes>) {
    forall i, j :: 0 <= i < j < |s| ==> Less(s[i], s[j])
  }

  ghost predicate Enumerates(s: seq<Bytes>, elems: set<Bytes>) {
    StrictlyAscending(s) && forall x :: x in s <==> x in elems
  }

  lemma {:induction false} LeastExists(elems: set<Bytes>) returns (m: Bytes)
    requires elems != {}
    ensures m in elems && forall x :: x in elems && x != m ==> Less(m, x)
    decreases elems
  {
    var x :| x in elems;
    if elems == {x} { return x; }
    var rest := elems - {x};
    var m' := LeastExists(rest);
    LessConnected(x, m');
    m := if Less(x, m') then x else m';
    forall y | y in elems && y != m ensures Less(m, y) {
      if Less(x, m') && y != m' { LessTransitive(x, m', y); }
    }
  }

  /** The order in which a `BTreeSet` yields its elements. */
  ghost function Ascending(elems: set<Bytes>): (s: seq<Bytes>)
    ensures Enumerates(s, elems)
    decreases elems
  {
    if elems == {} then [] else
      LeastIn(elems);
      var m :| m in elems && forall x :: x in elems && x != m ==> Less(m, x);
      [m] + Ascending(elems - {m})
  }

  lemma LeastIn(elems: set<Bytes>)
    requires elems != {}
    ensures exists m :: m in elems && forall x :: x in elems && x != m ==> Less(m, x)
  {
    var m := LeastExists(elems);
  }

  // ---- Splitting on a separator ----

  predicate Free(s: string, c: char) { c !in s }

  /** Rust's `str::split`: one part more than there are separators. */
  function Split(s: Bytes, sep: byte): (parts: seq<Bytes>)
    ensures |parts| >= 1
    ensures forall i :: 0 <= i < |parts| ==> Free(parts[i], sep)
  {
    if s == [] then [[]]
    else
      var rest := Split(s[1..], sep);
      if s[0] == sep then [[]] + rest else [[s[0]] + rest[0]] + rest[1..]
  }

  function Join(parts: seq<Bytes>, sep: Bytes): Bytes {
    if parts == [] then []
    else if |parts| == 1 then parts[0]
    else parts[0] + sep + Join(parts[1..], sep)
  }

  lemma {:induction false} SplitFree(s: Bytes, sep: byte)
    requires Free(s, sep)
    ensures Split(s, sep) == [s]
  {
    if s != [] {
      SplitFree(s[1..], sep);
      assert s == [s[0]] + s[1..];
    }
  }

  /** Splitting distributes over a separator: the law behind merging header lines. */
  lemma {:induction false} SplitAtSeparator(a: Bytes, sep: byte, b: Bytes)
    ensures Split(a + [sep] + b, sep) == Split(a, sep) + Split(b, sep)
  {
    var s := a + [sep] + b;
    if a == [] {
      assert s[1..] == b;
    } else {
      assert s[1..] == a[1..] + [sep] + b;
      SplitAtSeparator(a[1..], sep, b);
    }
  }

  lemma {:induction false} JoinSplit(s: Bytes, sep: byte)
    ensures Join(Split(s, sep), [sep]) == s
  {
    if s != [] {
      var rest := Split(s[1..], sep);
      JoinSplit(s[1..], sep);
      assert s == [s[0]] + s[1..];
      if s[0] == sep {
        assert ([[]] + rest)[1..] == rest;
      } else {
        assert Split(s, sep)[1..] == rest[1..];
        if |rest| > 1 { assert Join(rest, [sep]) == rest[0] + [sep] + Join(rest[1..], [sep]); }
      }
    }
  }
}
