/** The vary set of a request and the headers stripped before it is cached
    (grcache-proxy/src/grpc/headers.rs). */
module Headers {
  import opened Text

  /** `http::HeaderMap`: lower-case names, each with its lines in order. */
  type HeaderMap = map<Bytes, seq<Bytes>>

  function LowerByte(b: byte): byte {
    if 'A' <= b <= 'Z' then ((b as int) + 32) as char else b
  }

  function Lower(s: Bytes): (r: Bytes)
    ensures |r| == |s|
    ensures forall i :: 0 <= i < |s| ==> !('A' <= r[i] <= 'Z')
    ensures forall i :: 0 <= i < |s| && r[i] != s[i] ==> 'A' <= s[i] <= 'Z' && r[i] as int - s[i] as int == 'a' as int - 'A' as int
  {
    seq(|s|, i requires 0 <= i < |s| => LowerByte(s[i]))
  }

  /** `HeaderMap::get_all`, which ignores the case of the name it is given. */
  function GetAll(h: HeaderMap, name: Bytes): seq<Bytes> {
    if Lower(name) in h then h[Lower(name)] else []
  }

  // ---- make_vary_headers_set ----

  predicate VisibleAscii(b: byte) { 32 <= b as int < 127 || b == '\t' }

  /** `HeaderValue::to_str` succeeds. */
  predicate Decodable(line: Bytes) { forall i :: 0 <= i < |line| ==> VisibleAscii(line[i]) }

  predicate Space(b: byte) { b == ' ' || b == '\t' }

  predicate Blank(s: Bytes) { forall i :: 0 <= i < |s| ==> Space(s[i]) }

  function TrimLeft(s: Bytes): Bytes {
    if s != [] && Space(s[0]) then TrimLeft(s[1..]) else s
  }

  function TrimRight(s: Bytes): Bytes {
    if s != [] && Space(s[|s| - 1]) then TrimRight(s[..|s| - 1]) else s
  }

  /** `str::trim` on a decodable line, whose only white space is blank and tab. */
  function Trim(s: Bytes): Bytes { TrimRight(TrimLeft(s)) }

  /** What one `vary` line contributes; an undecodable line is dropped by the `flat_map`. */
  function Members(line: Bytes): set<Bytes> {
    if Decodable(line) then
      var parts := Split(line, ',');
      set i | 0 <= i < |parts| :: Trim(parts[i])
    else {}
  }

  /** The collected `BTreeSet`. No line makes the collection fail, so the `Err` arm is dead. */
  function VarySet(lines: seq<Bytes>): set<Bytes> {
    if lines == [] then {} else Members(lines[0]) + VarySet(lines[1..])
  }

  lemma {:induction false} InVarySet(lines: seq<Bytes>, m: Bytes)
    ensures m in VarySet(lines) <==> exists line :: line in lines && m in Members(line)
  {
    if lines != [] {
      InVarySet(lines[1..], m);
      assert forall line :: line in lines <==> line == lines[0] || line in lines[1..];
    }
  }

  lemma VarySetConcat(a: seq<Bytes>, b: seq<Bytes>)
    ensures VarySet(a + b) == VarySet(a) + VarySet(b)
  {
    forall m ensures m in VarySet(a + b) <==> m in VarySet(a) + VarySet(b) {
      InVarySet(a + b, m);
      InVarySet(a, m);
      InVarySet(b, m);
    }
  }

  /** Reordering, duplicating or dropping duplicates of lines changes nothing, and undecodable
      lines contribute nothing. */
  lemma VaryIgnoresOrderAndCopies(lines: seq<Bytes>, lines': seq<Bytes>)
    requires forall l :: Decodable(l) ==> (l in lines <==> l in lines')
    ensures VarySet(lines) == VarySet(lines')
  {
    forall m ensures m in VarySet(lines) <==> m in VarySet(lines') {
      InVarySet(lines, m);
      InVarySet(lines', m);
    }
  }

  lemma MembersOfMerged(a: Bytes, b: Bytes)
    requires Decodable(a) <==> Decodable(b)
    ensures Members(a + "," + b) == Members(a) + Members(b)
  {
    var line := a + "," + b;
    assert forall i :: 0 <= i < |a| ==> line[i] == a[i];
    assert forall i :: 0 <= i < |b| ==> line[|a| + 1 + i] == b[i];
    if Decodable(a) {
      assert a + [','] + b == line;
      SplitAtSeparator(a, ',', b);
      var pa, pb, p := Split(a, ','), Split(b, ','), Split(line, ',');
      forall m ensures m in Members(line) <==> m in Members(a) + Members(b) {
        if m in Members(a) {
          var i :| 0 <= i < |pa| && m == Trim(pa[i]);
          assert p[i] == pa[i];
        }
        if m in Members(b) {
          var i :| 0 <= i < |pb| && m == Trim(pb[i]);
          assert p[|pa| + i] == pb[i];
        }
      }
    } else {
      assert !Decodable(line);
    }
  }

  /** Sending two lines or one line with their members joined by a comma is the same. */
  lemma VaryMergesLines(pre: seq<Bytes>, a: Bytes, b: Bytes, post: seq<Bytes>)
    requires Decodable(a) <==> Decodable(b)
    ensures VarySet(pre + [a + "," + b] + post) == VarySet(pre + [a, b] + post)
  {
    MembersOfMerged(a, b);
    VarySetConcat(pre + [a + "," + b], post);
    VarySetConcat(pre, [a + "," + b]);
    VarySetConcat(pre + [a, b], post);
    VarySetConcat(pre, [a, b]);
    assert VarySet([a + "," + b]) == Members(a + "," + b);
    assert [a, b][1..] == [b];
    assert VarySet([b]) == Members(b);
  }

  lemma {:induction false} TrimLeftDrops(w: Bytes, s: Bytes)
    requires Blank(w)
    ensures TrimLeft(w + s) == TrimLeft(s)
  {
    if w == [] { assert w + s == s; } else {
      assert (w + s)[1..] == w[1..] + s;
      TrimLeftDrops(w[1..], s);
    }
  }

  lemma {:induction false} TrimRightDrops(s: Bytes, w: Bytes)
    requires Blank(w)
    ensures TrimRight(s + w) == TrimRight(s)
  {
    if w == [] { assert s + w == s; } else {
      var w' := w[..|w| - 1];
      assert (s + w)[..|s + w| - 1] == s + w';
      TrimRightDrops(s, w');
    }
  }

  lemma {:induction false} TrimLeftKeepsTail(s: Bytes, w: Bytes)
    requires Blank(w)
    ensures TrimLeft(s + w) == TrimLeft(s) + w || (TrimLeft(s) == [] && TrimLeft(s + w) == [])
  {
    if s == [] {
      assert s + w == w + [];
      TrimLeftDrops(w, []);
    } else if Space(s[0]) {
      assert (s + w)[1..] == s[1..] + w;
      TrimLeftKeepsTail(s[1..], w);
    }
  }

  lemma TrimIgnoresPadding(w: Bytes, s: Bytes, w': Bytes)
    requires Blank(w) && Blank(w')
    ensures Trim(w + s + w') == Trim(s)
  {
    assert w + s + w' == w + (s + w');
    TrimLeftDrops(w, s + w');
    TrimLeftKeepsTail(s, w');
    TrimRightDrops(TrimLeft(s), w');
  }

  // ---- What trimming leaves ----

  /** Neither the first nor the last byte is a blank. */
  ghost predicate Bare(s: Bytes) { s != [] ==> !Space(s[0]) && !Space(s[|s| - 1]) }

  ghost predicate Pads(w: Bytes, m: Bytes, w': Bytes, s: Bytes) { Blank(w) && Blank(w') && s == w + m + w' }

  /** `m` with blanks around it. */
  ghost predicate Padded(m: Bytes, s: Bytes) { exists w, w' :: Pads(w, m, w', s) }

  lemma {:induction false} TrimLeftCuts(s: Bytes) returns (w: Bytes)
    ensures Blank(w) && s == w + TrimLeft(s) && (TrimLeft(s) != [] ==> !Space(TrimLeft(s)[0]))
  {
    w := [];
    if s != [] && Space(s[0]) {
      var w' := TrimLeftCuts(s[1..]);
      w := [s[0]] + w';
      assert s == [s[0]] + s[1..];
    }
  }

  lemma {:induction false} TrimRightCuts(s: Bytes) returns (w: Bytes)
    ensures Blank(w) && s == TrimRight(s) + w && (TrimRight(s) != [] ==> !Space(TrimRight(s)[|TrimRight(s)| - 1]))
  {
    w := [];
    if s != [] && Space(s[|s| - 1]) {
      var w' := TrimRightCuts(s[..|s| - 1]);
      w := w' + [s[|s| - 1]];
      assert s == s[..|s| - 1] + [s[|s| - 1]];
    }
  }

  /** Trimming is exactly the removal of the blanks on both sides. */
  lemma TrimExact(s: Bytes, m: Bytes)
    ensures Trim(s) == m <==> Bare(m) && Padded(m, s)
  {
    var w := TrimLeftCuts(s);
    var w' := TrimRightCuts(TrimLeft(s));
    assert Pads(w, Trim(s), w', s);
    if Trim(s) != [] { assert TrimLeft(s)[0] == Trim(s)[0]; }
    if Bare(m) && Padded(m, s) {
      var v, v' :| Pads(v, m, v', s);
      TrimIgnoresPadding(v, m, v');
    }
  }

  // ---- One line as a list of members ----

  ghost predicate IsMember(m: Bytes) { Free(m, ',') && Decodable(m) }

  ghost predicate AreMembers(ms: seq<Bytes>) { ms != [] && forall i :: 0 <= i < |ms| ==> IsMember(ms[i]) }

  lemma MembersOfOne(m: Bytes)
    requires IsMember(m)
    ensures Members(m) == {Trim(m)}
  {
    SplitFree(m, ',');
    assert Split(m, ',')[0] == m;
  }

  lemma {:induction false} PartsDecodable(s: Bytes, i: nat)
    requires Decodable(s) && i < |Split(s, ',')|
    ensures Decodable(Split(s, ',')[i])
  {
    if s != [] {
      PartsDecodable(s[1..], if i == 0 || s[0] != ',' then i else i - 1);
    }
  }

  /** Every decodable line is such a list, so what follows is about all lines that count. */
  lemma EveryLineIsMembers(line: Bytes)
    requires Decodable(line)
    ensures AreMembers(Split(line, ',')) && Join(Split(line, ','), ",") == line
  {
    forall i | 0 <= i < |Split(line, ',')| ensures IsMember(Split(line, ',')[i]) { PartsDecodable(line, i); }
    JoinSplit(line, ',');
  }

  ghost function Trimmed(ms: seq<Bytes>): set<Bytes> { set m | m in ms :: Trim(m) }

  /** A line with one member or more, joined by commas, contributes exactly its trimmed members. */
  lemma {:induction false} MembersOfLine(ms: seq<Bytes>)
    requires AreMembers(ms)
    ensures Decodable(Join(ms, ",")) && Members(Join(ms, ",")) == Trimmed(ms)
  {
    MembersOfOne(ms[0]);
    if |ms| > 1 {
      MembersOfLine(ms[1..]);
      MembersOfMerged(ms[0], Join(ms[1..], ","));
      assert ms == [ms[0]] + ms[1..];
    }
  }

  /** If no member has a blank at either end, the line contributes exactly its members. */
  lemma BareMembersOfLine(ms: seq<Bytes>)
    requires AreMembers(ms) && forall m :: m in ms ==> Bare(m)
    ensures Members(Join(ms, ",")) == set m | m in ms
  {
    MembersOfLine(ms);
    forall m | m in ms ensures Trim(m) == m {
      assert Pads([], m, [], m);
      TrimExact(m, m);
    }
  }

  /** What a line contributes: its parts between commas, without the blanks around them. */
  lemma InMembers(line: Bytes, m: Bytes)
    ensures m in Members(line) <==>
            Decodable(line) && Bare(m) && exists part :: part in Split(line, ',') && Padded(m, part)
  {
    forall part ensures Trim(part) == m <==> Bare(m) && Padded(m, part) { TrimExact(part, m); }
  }

  lemma VarySameLine(pre: seq<Bytes>, line: Bytes, line': Bytes, post: seq<Bytes>)
    requires Members(line) == Members(line')
    ensures VarySet(pre + [line] + post) == VarySet(pre + [line'] + post)
  {
    VarySetConcat(pre + [line], post);
    VarySetConcat(pre, [line]);
    VarySetConcat(pre + [line'], post);
    VarySetConcat(pre, [line']);
  }

  /** Reordering and repeating the members of a line changes nothing. */
  lemma VaryIgnoresMemberOrder(pre: seq<Bytes>, ms: seq<Bytes>, ms': seq<Bytes>, post: seq<Bytes>)
    requires AreMembers(ms) && forall m :: m in ms <==> m in ms'
    ensures VarySet(pre + [Join(ms, ",")] + post) == VarySet(pre + [Join(ms', ",")] + post)
  {
    assert ms[0] in ms';
    forall j | 0 <= j < |ms'| ensures IsMember(ms'[j]) { assert ms'[j] in ms; }
    MembersOfLine(ms);
    MembersOfLine(ms');
    assert Trimmed(ms) == Trimmed(ms');
    VarySameLine(pre, Join(ms, ","), Join(ms', ","), post);
  }

  lemma TrimmedUpdate(ms: seq<Bytes>, k: nat, m: Bytes)
    requires k < |ms| && Trim(m) == Trim(ms[k])
    ensures Trimmed(ms[k := m]) == Trimmed(ms)
  {
    var ms' := ms[k := m];
    forall x | x in ms ensures exists y :: y in ms' && Trim(y) == Trim(x) {
      var i :| 0 <= i < |ms| && ms[i] == x;
      assert ms'[i] in ms';
    }
    forall y | y in ms' ensures exists x :: x in ms && Trim(y) == Trim(x) {
      var i :| 0 <= i < |ms'| && ms'[i] == y;
      assert ms[i] in ms;
    }
  }

  /** Padding a member with blanks, be it the first, the last, the only one or any other of its
      line, changes nothing. */
  lemma VaryIgnoresPadding(pre: seq<Bytes>, ms: seq<Bytes>, k: nat, w: Bytes, w': Bytes, post: seq<Bytes>)
    requires AreMembers(ms) && k < |ms| && Blank(w) && Blank(w')
    ensures VarySet(pre + [Join(ms[k := w + ms[k] + w'], ",")] + post) == VarySet(pre + [Join(ms, ",")] + post)
  {
    var padded := w + ms[k] + w';
    TrimIgnoresPadding(w, ms[k], w');
    assert IsMember(padded) by { assert IsMember(ms[k]); }
    TrimmedUpdate(ms, k, padded);
    MembersOfLine(ms);
    MembersOfLine(ms[k := padded]);
    VarySameLine(pre, Join(ms[k := padded], ","), Join(ms, ","), post);
  }

  // ---- find_strip_headers ----

  const CORE_HEADERS: set<Bytes> := {"host", "content-type", "te", "vary", "user-agent"}

  predicate Keep(name: Bytes, varySet: set<Bytes>, propagationSet: set<Bytes>) {
    name in CORE_HEADERS || name in varySet || name in propagationSet
  }

  function FindStripHeaders(keys: seq<Bytes>, varySet: set<Bytes>, propagationSet: set<Bytes>): (strip: seq<Bytes>)
    ensures forall k :: k in strip <==>
              k in keys && k !in varySet && k !in propagationSet && k !in {"host", "content-type", "te", "vary", "user-agent"}
  {
    if keys == [] then []
    else
      var rest := FindStripHeaders(keys[1..], varySet, propagationSet);
      if Keep(keys[0], varySet, propagationSet) then rest else [keys[0]] + rest
  }

  /** The headers forwarded upstream. */
  function Surviving(h: HeaderMap, varySet: set<Bytes>, propagationSet: set<Bytes>): HeaderMap {
    map k | k in h && Keep(k, varySet, propagationSet) :: h[k]
  }

  /** A request session: `request_filter` removes the stripped headers one by one. */
  class Session {
    var headers: HeaderMap

    constructor (headers: HeaderMap)
      ensures this.headers == headers
    {
      this.headers := headers;
    }

    method StripHeaders(keys: seq<Bytes>, varySet: set<Bytes>, propagationSet: set<Bytes>)
      requires forall k :: k in keys <==> k in headers
      modifies this
      ensures headers == Surviving(old(headers), varySet, propagationSet)
    {
      var strip := FindStripHeaders(keys, varySet, propagationSet);
      for i := 0 to |strip|
        invariant headers.Keys <= old(headers).Keys
        invariant forall k :: k in old(headers) ==> (k in headers <==> k !in strip[..i])
        invariant forall k :: k in headers ==> headers[k] == old(headers)[k]
      {
        headers := headers - {strip[i]};
        assert strip[..i + 1] == strip[..i] + [strip[i]];
      }
      assert strip[..|strip|] == strip;
    }
  }
}
