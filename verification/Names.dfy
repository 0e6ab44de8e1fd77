/** `QualifiedService` and the gRPC request path. */
module Names {
  import opened Text

  // ---- grcache-shared/src/service/qualified_service.rs ----

  datatype QualifiedService = QualifiedService(package: string, name: string)

  predicate Dotted(s: string) { '.' in s }

  /** `str::rsplit_once(".")`: cut at the last dot. */
  function RSplitOnce(s: string): Option<(string, string)> {
    if s == [] then None
    else if s[|s| - 1] == '.' then Some((s[..|s| - 1], []))
    else match RSplitOnce(s[..|s| - 1])
      case None => None
      case Some(p) => Some((p.0, p.1 + [s[|s| - 1]]))
  }

  function Parse(s: string): Result<QualifiedService, string> {
    match RSplitOnce(s)
    case Some(p) => Ok(QualifiedService(p.0, p.1))
    case None => Err(s)
  }

  function Print(q: QualifiedService): string { q.package + "." + q.name }

  lemma {:induction false} RSplitOnceExact(s: string)
    ensures RSplitOnce(s).None? <==> !Dotted(s)
    ensures RSplitOnce(s).Some? ==>
              var p := RSplitOnce(s).value;
              s == p.0 + "." + p.1 && !Dotted(p.1)
  {
    if s != [] && s[|s| - 1] != '.' {
      RSplitOnceExact(s[..|s| - 1]);
      assert s == s[..|s| - 1] + [s[|s| - 1]];
    }
  }

  lemma {:induction false} RSplitOnceOfConcat(package: string, name: string)
    requires !Dotted(name)
    ensures RSplitOnce(package + "." + name) == Some((package, name))
  {
    var s := package + "." + name;
    if name == [] {
      assert s[..|s| - 1] == package;
    } else {
      var name' := name[..|name| - 1];
      RSplitOnceOfConcat(package, name');
      assert s[..|s| - 1] == package + "." + name';
      assert name == name' + [name[|name| - 1]];
    }
  }

  /** Parsing succeeds exactly on dotted strings, and printing the result restores the input. */
  lemma PrintParse(s: string)
    ensures Parse(s).Ok? <==> Dotted(s)
    ensures Parse(s).Ok? ==> Print(Parse(s).value) == s && !Dotted(Parse(s).value.name)
    ensures Parse(s).Err? ==> Parse(s).error == s
  {
    RSplitOnceExact(s);
  }

  /** Parsing a printed service restores it exactly when its name has no dot. */
  lemma ParsePrint(q: QualifiedService)
    ensures Parse(Print(q)) == Ok(q) <==> !Dotted(q.name)
  {
    PrintParse(Print(q));
    if !Dotted(q.name) { RSplitOnceOfConcat(q.package, q.name); }
  }

  // ---- parse_grpc_path, grcache-proxy/src/proxy/mod.rs ----

  predicate Continuation(b: byte) { 0x80 <= b as int < 0xC0 }

  /** `str::from_utf8` succeeds: the well-formed sequences of table 3-7 of the Unicode standard. */
  predicate Utf8(s: Bytes) {
    if s == [] then true
    else
      var a := s[0] as int;
      if a < 0x80 then Utf8(s[1..])
      else if 0xC2 <= a < 0xE0 then |s| >= 2 && Continuation(s[1]) && Utf8(s[2..])
      else if 0xE0 <= a < 0xF0 then
        && |s| >= 3 && Continuation(s[1]) && Continuation(s[2])
        && (a == 0xE0 ==> s[1] as int >= 0xA0) && (a == 0xED ==> (s[1] as int) < 0xA0)
        && Utf8(s[3..])
      else
        && 0xF0 <= a < 0xF5 && |s| >= 4 && Continuation(s[1]) && Continuation(s[2]) && Continuation(s[3])
        && (a == 0xF0 ==> s[1] as int >= 0x90) && (a == 0xF4 ==> (s[1] as int) < 0x90)
        && Utf8(s[4..])
  }

  // ---- What `Utf8` accepts: the encodings of texts ----

  function EncodeChar(c: char): Bytes {
    var n := c as int;
    if n < 0x80 then [n as char]
    else if n < 0x800 then [(0xC0 + n / 0x40) as char, (0x80 + n % 0x40) as char]
    else if n < 0x1_0000 then
      [(0xE0 + n / 0x1000) as char, (0x80 + n / 0x40 % 0x40) as char, (0x80 + n % 0x40) as char]
    else
      [(0xF0 + n / 0x4_0000) as char, (0x80 + n / 0x1000 % 0x40) as char, (0x80 + n / 0x40 % 0x40) as char, (0x80 + n % 0x40) as char]
  }

  function EncodeText(t: string): Bytes {
    if t == [] then [] else EncodeChar(t[0]) + EncodeText(t[1..])
  }

  lemma ThreeByteRange(n: int)
    requires 0x800 <= n < 0xD800 || 0xE000 <= n < 0x1_0000
    ensures 0 <= n / 0x1000 < 0x10
    ensures (n / 0x1000 == 0 ==> n / 0x40 % 0x40 >= 0x20) && (n / 0x1000 == 0xD ==> n / 0x40 % 0x40 < 0x20)
  {
    assert n / 0x40 / 0x40 == n / 0x1000;
  }

  lemma FourByteRange(n: int)
    requires 0x1_0000 <= n < 0x11_0000
    ensures 0 <= n / 0x4_0000 < 5
    ensures (n / 0x4_0000 == 0 ==> n / 0x1000 % 0x40 >= 0x10) && (n / 0x4_0000 == 4 ==> n / 0x1000 % 0x40 < 0x10)
  {
    assert n / 0x1000 / 0x40 == n / 0x4_0000;
  }

  lemma CharIsUtf8(c: char, rest: Bytes)
    requires Utf8(rest)
    ensures Utf8(EncodeChar(c) + rest)
  {
    var n, e := c as int, EncodeChar(c);
    var s := e + rest;
    assert s[|e|..] == rest && forall i :: 0 <= i < |e| ==> s[i] == e[i];
    if 0x800 <= n < 0x1_0000 {
      ThreeByteRange(n);
      assert Continuation(e[1]) && Continuation(e[2]);
    } else if 0x1_0000 <= n {
      FourByteRange(n);
      assert Continuation(e[1]) && Continuation(e[2]) && Continuation(e[3]);
    }
  }

  lemma {:induction false} TextIsUtf8(t: string)
    ensures Utf8(EncodeText(t))
  {
    if t != [] {
      TextIsUtf8(t[1..]);
      CharIsUtf8(t[0], EncodeText(t[1..]));
    }
  }

  lemma TwoByteChar(a: int, x: int) returns (c: char)
    requires 0xC2 <= a < 0xE0 && 0x80 <= x < 0xC0
    ensures EncodeChar(c) == [a as char, x as char]
  {
    c := ((a - 0xC0) * 0x40 + (x - 0x80)) as char;
  }

  lemma ThreeByteChar(a: int, x: int, y: int) returns (c: char)
    requires 0xE0 <= a < 0xF0 && 0x80 <= x < 0xC0 && 0x80 <= y < 0xC0
    requires (a == 0xE0 ==> x >= 0xA0) && (a == 0xED ==> x < 0xA0)
    ensures EncodeChar(c) == [a as char, x as char, y as char]
  {
    var high := (a - 0xE0) * 0x40 + (x - 0x80);
    var n := high * 0x40 + (y - 0x80);
    assert n / 0x40 == high && n / 0x1000 == a - 0xE0;
    c := n as char;
  }

  lemma FourByteChar(a: int, x: int, y: int, z: int) returns (c: char)
    requires 0xF0 <= a < 0xF5 && 0x80 <= x < 0xC0 && 0x80 <= y < 0xC0 && 0x80 <= z < 0xC0
    requires (a == 0xF0 ==> x >= 0x90) && (a == 0xF4 ==> x < 0x90)
    ensures EncodeChar(c) == [a as char, x as char, y as char, z as char]
  {
    var top := (a - 0xF0) * 0x40 + (x - 0x80);
    var high := top * 0x40 + (y - 0x80);
    var n := high * 0x40 + (z - 0x80);
    assert n / 0x40 == high && n / 0x1000 == top && n / 0x4_0000 == a - 0xF0;
    c := n as char;
  }

  /** The first character of a well-formed string. */
  lemma FirstChar(s: Bytes) returns (c: char)
    requires s != [] && Utf8(s)
    ensures EncodeChar(c) <= s && Utf8(s[|EncodeChar(c)|..])
  {
    var a := s[0] as int;
    if a < 0x80 {
      c := s[0];
    } else if a < 0xE0 {
      c := TwoByteChar(a, s[1] as int);
    } else if a < 0xF0 {
      c := ThreeByteChar(a, s[1] as int, s[2] as int);
    } else {
      c := FourByteChar(a, s[1] as int, s[2] as int, s[3] as int);
    }
  }

  lemma {:induction false} Utf8IsText(s: Bytes) returns (t: string)
    requires Utf8(s)
    ensures EncodeText(t) == s
    decreases |s|
  {
    t := [];
    if s != [] {
      var c := FirstChar(s);
      var rest := Utf8IsText(s[|EncodeChar(c)|..]);
      t := [c] + rest;
    }
  }

  /** `Utf8` accepts exactly the encodings of texts. */
  lemma Utf8Exact(s: Bytes)
    ensures Utf8(s) <==> exists t :: EncodeText(t) == s
  {
    if Utf8(s) { var t := Utf8IsText(s); }
    forall t | EncodeText(t) == s ensures Utf8(s) { TextIsUtf8(t); }
  }

  /** In particular every ASCII path passes. */
  lemma {:induction false} AsciiIsUtf8(s: Bytes)
    requires forall i :: 0 <= i < |s| ==> s[i] as int < 0x80
    ensures Utf8(s)
  {
    if s != [] { AsciiIsUtf8(s[1..]); }
  }

  datatype PathError = NotUtf8 | NoLeadingSlash | NotTwoElements

  function ParseGrpcPath(path: Bytes): Result<(Bytes, Bytes), PathError> {
    if !Utf8(path) then Err(NotUtf8)
    else
      var parts := Split(path, '/');
      if parts[0] != [] then Err(NoLeadingSlash)
      else if |parts| < 3 || |parts| > 3 then Err(NotTwoElements)
      else Ok((parts[1], parts[2]))
  }

  /** `/service/method` with slash-free parts. */
  predicate TwoElements(path: Bytes, s: Bytes, m: Bytes) {
    path == "/" + s + "/" + m && Free(s, '/') && Free(m, '/')
  }

  lemma SplitTwoElements(s: Bytes, m: Bytes)
    requires Free(s, '/') && Free(m, '/')
    ensures Split("/" + s + "/" + m, '/') == [[], s, m]
  {
    var tail := s + ['/'] + m;
    SplitAtSeparator(s, '/', m);
    SplitFree(s, '/');
    SplitFree(m, '/');
    assert "/" + s + "/" + m == ['/'] + tail;
    assert (['/'] + tail)[1..] == tail;
  }

  /** The parser accepts exactly `/service/method` with slash-free parts, and reprinting the
      parts gives back the path. */
  lemma ParseGrpcPathExact(path: Bytes, s: Bytes, m: Bytes)
    ensures ParseGrpcPath(path) == Ok((s, m)) <==> Utf8(path) && TwoElements(path, s, m)
  {
    var parts := Split(path, '/');
    if ParseGrpcPath(path) == Ok((s, m)) {
      JoinSplit(path, '/');
      assert parts == [[], s, m];
      assert parts[1..] == [s, m] && parts[1..][1..] == [m];
      assert Join([s, m], "/") == s + "/" + Join([m], "/");
      assert Join(parts, "/") == [] + "/" + Join([s, m], "/");
    }
    if TwoElements(path, s, m) { SplitTwoElements(s, m); }
  }

  /** The path error names the first check that fails. */
  lemma ParseGrpcPathErrors(path: Bytes)
    ensures ParseGrpcPath(path) == Err(NotUtf8) <==> !Utf8(path)
    ensures ParseGrpcPath(path) == Err(NoLeadingSlash) <==> Utf8(path) && path != [] && path[0] != '/'
    ensures ParseGrpcPath(path) == Err(NotTwoElements) <==>
            Utf8(path) && (path == [] || path[0] == '/') && forall s, m :: !TwoElements(path, s, m)
  {
    if path != [] && path[0] == '/' { assert Split(path, '/')[0] == []; }
    forall s, m | TwoElements(path, s, m) ensures ParseGrpcPath(path) != Err(NotTwoElements) {
      SplitTwoElements(s, m);
    }
    if ParseGrpcPath(path).Ok? {
      var p := ParseGrpcPath(path).value;
      ParseGrpcPathExact(path, p.0, p.1);
    }
  }
}
