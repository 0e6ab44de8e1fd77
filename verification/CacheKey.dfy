/** The bytes fed to the cache-key hasher (grcache-proxy/src/grpc/hash.rs), and why equal bytes
    mean equal requests as far as the upstream can tell. */
module CacheKey {
  import opened Text
  import opened LittleEndian
  import opened Headers
  import opened Names

  // ---- The framing ----

  datatype Entry = Entry(name: Bytes, value: Bytes)

  function EntryBytes(e: Entry): Bytes { e.name + "\0" + e.value + "\0\0" }

  function EntriesBytes(entries: seq<Entry>): Bytes {
    if entries == [] then [] else EntryBytes(entries[0]) + EntriesBytes(entries[1..])
  }

  function BodyBytes(path: Bytes, body: Bytes): Bytes {
    U64(|path|) + path + U64(|body|) + body
  }

  function Frame(entries: seq<Entry>, path: Bytes, body: Bytes): Bytes {
    EntriesBytes(entries) + BodyBytes(path, body)
  }

  function JoinedValue(h: HeaderMap, name: Bytes): Bytes { Join(GetAll(h, name), ", ") }

  function VaryEntries(names: seq<Bytes>, h: HeaderMap): (r: seq<Entry>)
    ensures |r| == |names|
    ensures forall i :: 0 <= i < |names| ==> r[i] == Entry(names[i], JoinedValue(h, names[i]))
  {
    if names == [] then [] else [Entry(names[0], JoinedValue(h, names[0]))] + VaryEntries(names[1..], h)
  }

  // ---- The hasher, written to step by step ----

  class Hasher {
    var input: Bytes

    constructor ()
      ensures input == []
    {
      input := [];
    }

    method Update(data: Bytes)
      modifies this
      ensures input == old(input) + data
    {
      input := input + data;
    }
  }

  lemma {:induction false} EntriesBytesAppend(entries: seq<Entry>, e: Entry)
    ensures EntriesBytes(entries + [e]) == EntriesBytes(entries) + EntryBytes(e)
  {
    if entries == [] {
      assert [] + [e] == [e] && [e][1..] == [];
    } else {
      assert (entries + [e])[1..] == entries[1..] + [e];
      EntriesBytesAppend(entries[1..], e);
    }
  }

  lemma EntriesBytesExtend(entries: seq<Entry>, i: nat)
    requires i < |entries|
    ensures EntriesBytes(entries[..i + 1]) == EntriesBytes(entries[..i]) + EntryBytes(entries[i])
  {
    assert entries[..i + 1] == entries[..i] + [entries[i]];
    EntriesBytesAppend(entries[..i], entries[i]);
  }

  lemma {:induction false} JoinAppend(values: seq<Bytes>, v: Bytes)
    requires values != []
    ensures Join(values + [v], ", ") == Join(values, ", ") + ", " + v
  {
    if |values| == 1 {
      assert (values + [v])[1..] == [v];
    } else {
      assert (values + [v])[1..] == values[1..] + [v];
      JoinAppend(values[1..], v);
    }
  }

  method HashValues(hasher: Hasher, values: seq<Bytes>)
    modifies hasher
    ensures hasher.input == old(hasher.input) + Join(values, ", ")
  {
    for i := 0 to |values|
      invariant hasher.input == old(hasher.input) + Join(values[..i], ", ")
    {
      assert values[..i + 1] == values[..i] + [values[i]];
      if i > 0 {
        JoinAppend(values[..i], values[i]);
        hasher.Update(", ");
      }
      hasher.Update(values[i]);
    }
    assert values[..|values|] == values;
  }

  method HashEntry(hasher: Hasher, name: Bytes, values: seq<Bytes>)
    modifies hasher
    ensures hasher.input == old(hasher.input) + EntryBytes(Entry(name, Join(values, ", ")))
  {
    hasher.Update(name);
    hasher.Update("\0");
    HashValues(hasher, values);
    hasher.Update("\0\0");
  }

  /** `names` is the vary set in `BTreeSet` order. */
  method HashVary(hasher: Hasher, names: seq<Bytes>, headers: HeaderMap)
    modifies hasher
    ensures hasher.input == old(hasher.input) + EntriesBytes(VaryEntries(names, headers))
  {
    ghost var start, entries := hasher.input, VaryEntries(names, headers);
    assert start + EntriesBytes(entries[..0]) == start;
    for i := 0 to |names|
      invariant hasher.input == start + EntriesBytes(entries[..i])
    {
      HashEntry(hasher, names[i], GetAll(headers, names[i]));
      EntriesBytesExtend(entries, i);
      assert start + EntriesBytes(entries[..i]) + EntryBytes(entries[i])
          == start + (EntriesBytes(entries[..i]) + EntryBytes(entries[i]));
    }
    assert entries[..|names|] == entries;
  }

  method HashBody(hasher: Hasher, path: Bytes, body: Bytes)
    modifies hasher
    ensures hasher.input == old(hasher.input) + BodyBytes(path, body)
  {
    hasher.Update(U64(|path|));
    hasher.Update(path);
    hasher.Update(U64(|body|));
    hasher.Update(body);
  }

  method HashRequest(headers: HeaderMap, names: seq<Bytes>, path: Bytes, body: Bytes) returns (input: Bytes)
    ensures input == Frame(VaryEntries(names, headers), path, body)
  {
    var hasher := new Hasher();
    HashVary(hasher, names, headers);
    assert [] + EntriesBytes(VaryEntries(names, headers)) == EntriesBytes(VaryEntries(names, headers));
    HashBody(hasher, path, body);
    input := hasher.input;
  }

  // ---- Unique decodability ----

  ghost predicate NulFree(s: Bytes) { '\0' !in s }

  /** What a frame needs to be read back: NUL-free fields, entries in strict `BTreeSet` order, a
      path that is not empty and shorter than 2^16 (an `http::Uri` is). */
  ghost predicate Readable(entries: seq<Entry>, path: Bytes, body: Bytes) {
    && (forall i :: 0 <= i < |entries| ==> NulFree(entries[i].name) && NulFree(entries[i].value))
    && (forall i, j :: 0 <= i < j < |entries| ==> Less(entries[i].name, entries[j].name))
    && 0 < |path| < 0x1_0000
    && |body| < U64_LIMIT
  }

  /** A NUL-free field is delimited by the first NUL. */
  lemma {:induction false} FirstNul(a: Bytes, x: Bytes, a': Bytes, x': Bytes)
    requires NulFree(a) && NulFree(a') && a + ['\0'] + x == a' + ['\0'] + x'
    ensures a == a' && x == x'
  {
    var s := a + ['\0'] + x;
    assert s[|a|] == '\0' && s[|a'|] == '\0';
    assert forall i :: 0 <= i < |a| ==> s[i] == a[i];
    assert forall i :: 0 <= i < |a'| ==> s[i] == a'[i];
    assert |a| == |a'|;
    assert a == s[..|a|] == a';
    assert x == s[|a| + 1..] == x';
  }

  lemma BodyDecodes(p: Bytes, b: Bytes, p': Bytes, b': Bytes)
    requires |p| < U64_LIMIT && |p'| < U64_LIMIT && |b| < U64_LIMIT && |b'| < U64_LIMIT
    requires BodyBytes(p, b) == BodyBytes(p', b')
    ensures p == p' && b == b'
  {
    var s := BodyBytes(p, b);
    assert s[..8] == U64(|p|) && s[..8] == U64(|p'|);
    U64RoundTrip(|p|);
    U64RoundTrip(|p'|);
    assert s[8..8 + |p|] == p && s[8..8 + |p|] == p';
    assert s[16 + |p|..] == b && s[16 + |p|..] == b';
  }

  lemma EntryShape(e: Entry, rest: Bytes)
    ensures EntryBytes(e) + rest == e.name + ['\0'] + (e.value + ['\0'] + (['\0'] + rest))
  {
  }

  lemma EntryDecodes(e: Entry, rest: Bytes, e': Entry, rest': Bytes)
    requires NulFree(e.name) && NulFree(e.value) && NulFree(e'.name) && NulFree(e'.value)
    requires EntryBytes(e) + rest == EntryBytes(e') + rest'
    ensures e == e' && rest == rest'
  {
    EntryShape(e, rest);
    EntryShape(e', rest');
    var t, t' := ['\0'] + rest, ['\0'] + rest';
    FirstNul(e.name, e.value + ['\0'] + t, e'.name, e'.value + ['\0'] + t');
    FirstNul(e.value, t, e'.value, t');
    assert rest == t[1..] == t'[1..] == rest';
  }

  lemma FrameUnfold(entries: seq<Entry>, p: Bytes, b: Bytes)
    requires entries != []
    ensures Frame(entries, p, b) == EntryBytes(entries[0]) + Frame(entries[1..], p, b)
  {
  }

  /** After an entry that a body's length field could be mistaken for, three NULs follow. */
  lemma MistakenEntryEnd(e: Entry, rest: Bytes, p: Bytes, b: Bytes)
    requires NulFree(e.name) && NulFree(e.value) && 0 < |p| < 0x1_0000
    requires EntryBytes(e) + rest == BodyBytes(p, b)
    ensures |rest| >= 3 && rest[0] == rest[1] == rest[2] == '\0'
  {
    var s := EntryBytes(e) + rest;
    var n := U64(|p|);
    var k, v := |e.name|, |e.value|;
    U64Small(|p|);
    assert |s| >= 17;
    assert forall i :: 0 <= i < 8 ==> s[i] == n[i];
    assert s[k] == '\0' && s[k + 1 + v] == '\0' && s[k + v + 2] == '\0';
    assert forall i :: 0 <= i < k ==> s[i] == e.name[i] && s[i] != '\0';
    assert forall i :: 0 <= i < v ==> s[k + 1 + i] == e.value[i] && s[k + 1 + i] != '\0';
    assert s[2] == n[2] == '\0';
    assert k <= 2;
    assert k == 0 ==> n[1] != '\0';
    assert k == 0 ==> v == 1;
    assert v > 0 ==> s[k + 1] == e.value[0];
    assert k > 0 ==> v == 0;
    assert forall i :: 0 <= i < |rest| ==> rest[i] == s[k + v + 3 + i];
  }

  /** A readable frame whose first name is not empty never starts with two NULs. */
  lemma FrameStart(entries: seq<Entry>, p: Bytes, b: Bytes)
    requires Readable(entries, p, b) && (entries != [] ==> entries[0].name != [])
    ensures |Frame(entries, p, b)| >= 2 && (Frame(entries, p, b)[0] != '\0' || Frame(entries, p, b)[1] != '\0')
  {
    if entries == [] {
      U64Small(|p|);
      assert Frame(entries, p, b) == BodyBytes(p, b);
    } else {
      FrameUnfold(entries, p, b);
      assert Frame(entries, p, b)[0] == entries[0].name[0];
    }
  }

  /** No frame with an entry left to read equals one whose entries are exhausted. This is where
      the strict order of the vary set and the path bound are needed. */
  lemma EntryIsNotBody(entries: seq<Entry>, p: Bytes, b: Bytes, p': Bytes, b': Bytes)
    requires entries != [] && Readable(entries, p, b) && Readable([], p', b')
    ensures Frame(entries, p, b) != Frame([], p', b')
  {
    var rest := Frame(entries[1..], p, b);
    FrameUnfold(entries, p, b);
    assert |entries| > 1 ==> Less(entries[0].name, entries[1].name);
    FrameStart(entries[1..], p, b);
    assert Frame([], p', b') == BodyBytes(p', b');
    if Frame(entries, p, b) == Frame([], p', b') {
      MistakenEntryEnd(entries[0], rest, p', b');
    }
  }

  /** Unique decodability, even when the two frames have different numbers of entries. */
  lemma {:induction false} FrameDecodes(entries: seq<Entry>, p: Bytes, b: Bytes, entries': seq<Entry>, p': Bytes, b': Bytes)
    requires Readable(entries, p, b) && Readable(entries', p', b')
    requires Frame(entries, p, b) == Frame(entries', p', b')
    ensures entries == entries' && p == p' && b == b'
    decreases |entries|
  {
    if entries == [] && entries' == [] {
      assert Frame([], p, b) == BodyBytes(p, b) && Frame([], p', b') == BodyBytes(p', b');
      BodyDecodes(p, b, p', b');
    } else if entries == [] {
      EntryIsNotBody(entries', p', b', p, b);
    } else if entries' == [] {
      EntryIsNotBody(entries, p, b, p', b');
    } else {
      FrameUnfold(entries, p, b);
      FrameUnfold(entries', p', b');
      EntryDecodes(entries[0], Frame(entries[1..], p, b), entries'[0], Frame(entries'[1..], p', b'));
      FrameDecodes(entries[1..], p, b, entries'[1..], p', b');
      assert entries == [entries[0]] + entries[1..];
      assert entries' == [entries'[0]] + entries'[1..];
    }
  }

  // ---- Requests ----

  datatype Request = Request(headers: HeaderMap, path: Bytes, body: Bytes)

  function VaryOf(r: Request): set<Bytes> { VarySet(GetAll(r.headers, "vary")) }

  /** `line` is visible ASCII, and `m` with the blanks and tabs `w` and `w'` around it stands between
      two of its commas. */
  ghost predicate Lists(line: Bytes, w: Bytes, m: Bytes, w': Bytes) {
    && (forall i :: 0 <= i < |line| ==> 32 <= line[i] as int < 127 || line[i] == '\t')
    && (forall i :: 0 <= i < |w| ==> w[i] == ' ' || w[i] == '\t')
    && (forall i :: 0 <= i < |w'| ==> w'[i] == ' ' || w'[i] == '\t')
    && w + m + w' in Split(line, ',')
  }

  lemma ListsIsMember(line: Bytes, m: Bytes)
    ensures m in Members(line) <==> Bare(m) && exists w, w' :: Lists(line, w, m, w')
  {
    InMembers(line, m);
    if m in Members(line) {
      var part :| part in Split(line, ',') && Padded(m, part);
      var w, w' :| Pads(w, m, w', part);
      assert Lists(line, w, m, w');
    }
    if Bare(m) && exists w, w' :: Lists(line, w, m, w') {
      var w, w' :| Lists(line, w, m, w');
      assert Pads(w, m, w', w + m + w') && Padded(m, w + m + w');
    }
  }

  /** The vary set by the request's own `vary` lines: what stands between the commas of a line of
      visible ASCII, without the blanks around it. */
  lemma InVaryOf(r: Request, m: Bytes)
    ensures m in VaryOf(r) <==>
            && "vary" in r.headers && Bare(m)
            && exists line, w, w' :: line in r.headers["vary"] && Lists(line, w, m, w')
  {
    assert Lower("vary") == "vary";
    InVarySet(GetAll(r.headers, "vary"), m);
    forall line ensures m in Members(line) <==> Bare(m) && exists w, w' :: Lists(line, w, m, w') { ListsIsMember(line, m); }
  }

  /** The headers a cached request still carries when it is hashed and forwarded; the propagation
      set is empty. */
  function Forwarded(r: Request): HeaderMap { Surviving(r.headers, VaryOf(r), {}) }

  ghost function KeyInput(r: Request): Bytes {
    Frame(VaryEntries(Ascending(VaryOf(r)), Forwarded(r)), r.path, r.body)
  }

  /** What HTTP and `parse_grpc_path` guarantee of a request that reaches the cache. */
  ghost predicate Admissible(r: Request) {
    && (forall k :: k in r.headers ==> Lower(k) == k && forall i :: 0 <= i < |r.headers[k]| ==> NulFree(r.headers[k][i]))
    && ParseGrpcPath(r.path).Ok?
    && |r.path| < 0x1_0000
    && |r.body| < U64_LIMIT
  }

  /** From `request_filter`'s stripping to the digest of `cache_key_callback`; `keys` are the
      header names in the map's order and `names` the vary set in `BTreeSet` order. */
  method ComputeKeyInput(r: Request, keys: seq<Bytes>, names: seq<Bytes>) returns (input: Bytes)
    requires (forall k :: k in keys <==> k in r.headers) && names == Ascending(VaryOf(r))
    ensures input == KeyInput(r)
  {
    var session := new Session(r.headers);
    session.StripHeaders(keys, VaryOf(r), {});
    input := HashRequest(session.headers, names, r.path, r.body);
  }

  lemma {:induction false} JoinNulFree(values: seq<Bytes>)
    requires forall i :: 0 <= i < |values| ==> NulFree(values[i])
    ensures NulFree(Join(values, ", "))
  {
    if |values| > 1 { JoinNulFree(values[1..]); }
  }

  lemma {:induction false} TrimOfDecodable(s: Bytes)
    requires Decodable(s)
    ensures Decodable(TrimLeft(s)) && Decodable(TrimRight(s))
  {
    if s != [] {
      TrimOfDecodable(s[1..]);
      TrimOfDecodable(s[..|s| - 1]);
    }
  }

  lemma VaryNamesNulFree(lines: seq<Bytes>, m: Bytes)
    requires m in VarySet(lines)
    ensures NulFree(m)
  {
    InVarySet(lines, m);
    var line :| line in lines && m in Members(line);
    var i :| 0 <= i < |Split(line, ',')| && m == Trim(Split(line, ',')[i]);
    PartsDecodable(line, i);
    TrimOfDecodable(Split(line, ',')[i]);
    TrimOfDecodable(TrimLeft(Split(line, ',')[i]));
    assert forall j :: 0 <= j < |m| ==> VisibleAscii(m[j]);
  }

  lemma AdmissibleIsReadable(r: Request)
    requires Admissible(r)
    ensures Readable(VaryEntries(Ascending(VaryOf(r)), Forwarded(r)), r.path, r.body)
  {
    var names := Ascending(VaryOf(r));
    var entries := VaryEntries(names, Forwarded(r));
    forall i | 0 <= i < |names| ensures NulFree(entries[i].name) && NulFree(entries[i].value) {
      assert names[i] in VaryOf(r);
      VaryNamesNulFree(GetAll(r.headers, "vary"), names[i]);
      JoinNulFree(GetAll(Forwarded(r), names[i]));
    }
    var p := ParseGrpcPath(r.path).value;
    ParseGrpcPathExact(r.path, p.0, p.1);
  }

  lemma AscendingDetermines(a: set<Bytes>, b: set<Bytes>)
    requires Ascending(a) == Ascending(b)
    ensures a == b
  {
    assert forall x :: x in a <==> x in Ascending(a);
    assert forall x :: x in b <==> x in Ascending(b);
  }

  /** What of two requests must agree: path, body, vary set and, for each name of that set, the
      ", "-joined forwarded value. */
  ghost predicate SameKeyed(r: Request, r': Request) {
    && r.path == r'.path && r.body == r'.body && VaryOf(r) == VaryOf(r')
    && forall n :: n in VaryOf(r) ==> JoinedValue(Forwarded(r), n) == JoinedValue(Forwarded(r'), n)
  }

  lemma SameEntries(a: set<Bytes>, h: HeaderMap, a': set<Bytes>, h': HeaderMap)
    requires VaryEntries(Ascending(a), h) == VaryEntries(Ascending(a'), h')
    ensures a == a' && forall n :: n in a ==> JoinedValue(h, n) == JoinedValue(h', n)
  {
    var names, names' := Ascending(a), Ascending(a');
    var es, es' := VaryEntries(names, h), VaryEntries(names', h');
    assert names == names' by {
      forall i | 0 <= i < |names| ensures names[i] == names'[i] { assert es[i] == es'[i]; }
    }
    AscendingDetermines(a, a');
    forall n | n in a ensures JoinedValue(h, n) == JoinedValue(h', n) {
      assert n in names;
      var i :| 0 <= i < |names| && names[i] == n;
      assert es[i] == es'[i];
    }
  }

  lemma SameKeyedSameInput(r: Request, r': Request)
    requires SameKeyed(r, r')
    ensures KeyInput(r) == KeyInput(r')
  {
    var names := Ascending(VaryOf(r));
    var es, es' := VaryEntries(names, Forwarded(r)), VaryEntries(names, Forwarded(r'));
    forall i | 0 <= i < |names| ensures es[i] == es'[i] { assert names[i] in VaryOf(r); }
    assert es == es';
  }

  /** Two admissible requests feed the hasher the same bytes exactly when they have the same path,
      body and vary set and, for each name of that set, the same ", "-joined forwarded value. */
  lemma SameKeyInputIff(r: Request, r': Request)
    requires Admissible(r) && Admissible(r')
    ensures KeyInput(r) == KeyInput(r') <==> SameKeyed(r, r')
  {
    if KeyInput(r) == KeyInput(r') {
      AdmissibleIsReadable(r);
      AdmissibleIsReadable(r');
      FrameDecodes(VaryEntries(Ascending(VaryOf(r)), Forwarded(r)), r.path, r.body,
                   VaryEntries(Ascending(VaryOf(r')), Forwarded(r')), r'.path, r'.body);
      SameEntries(VaryOf(r), Forwarded(r), VaryOf(r'), Forwarded(r'));
    }
    if SameKeyed(r, r') { SameKeyedSameInput(r, r'); }
  }

  /** Which value a vary name brings into the key: the request's own, unless the lower-case form that
      header names have is neither core nor in the vary set, for then the header was stripped. */
  lemma ValueInKey(r: Request, n: Bytes)
    ensures GetAll(Forwarded(r), n) ==
            if Lower(n) in VaryOf(r) || Lower(n) in {"host", "content-type", "te", "vary", "user-agent"} then GetAll(r.headers, n) else []
  {
  }

  /** That case exists: a request that asks for `vary` on a name with a capital letter is forwarded
      without that header, and its key does not depend on the header's value. */
  lemma CapitalVaryIsLost(r: Request, n: Bytes)
    requires "vary" in r.headers && r.headers["vary"] == [n] && IsMember(n) && Bare(n)
    requires Lower(n) != n && Lower(n) !in {"host", "content-type", "te", "vary", "user-agent"}
    ensures VaryOf(r) == {n} && Lower(n) !in Forwarded(r) && JoinedValue(Forwarded(r), n) == []
  {
    assert Lower("vary") == "vary";
    BareMembersOfLine([n]);
    assert VarySet([n]) == Members(n) == {n};
    ValueInKey(r, n);
  }

  /** No cache leak: requests with the same key input are forwarded with the same non-core
      headers, up to line joining and absent versus empty; and every non-core header that is
      forwarded is named by both vary sets. */
  lemma SameKeySameForwardedHeaders(r: Request, r': Request, name: Bytes)
    requires Admissible(r) && Admissible(r')
    ensures KeyInput(r) == KeyInput(r') && Lower(name) == name && name !in {"host", "content-type", "te", "vary", "user-agent"} ==>
              && JoinedValue(Forwarded(r), name) == JoinedValue(Forwarded(r'), name)
              && (name in Forwarded(r) || name in Forwarded(r') ==> name in VaryOf(r) && name in VaryOf(r'))
              && (name in VaryOf(r) ==> JoinedValue(r.headers, name) == JoinedValue(r'.headers, name))
  {
    SameKeyInputIff(r, r');
  }
}
