/** The two little-endian length framings of the data plane share these integers. */
module LittleEndian {
  import opened Text

  function Pow256(k: nat): nat { if k == 0 then 1 else 256 * Pow256(k - 1) }

  function ToBytes(n: nat, width: nat): (b: Bytes)
    ensures |b| == width
  {
    if width == 0 then [] else [(n % 256) as char] + ToBytes(n / 256, width - 1)
  }

  function FromBytes(b: Bytes): nat {
    if b == [] then 0 else b[0] as int + 256 * FromBytes(b[1..])
  }

  const U64_LIMIT: nat := 0x1_0000_0000_0000_0000

  /** `u64::to_le_bytes` / `usize::to_le_bytes` on a 64-bit target. */
  function U64(n: nat): (b: Bytes)
    ensures |b| == 8
  {
    ToBytes(n, 8)
  }

  lemma {:induction false} FromToBytes(n: nat, width: nat)
    requires n < Pow256(width)
    ensures FromBytes(ToBytes(n, width)) == n
  {
    if width > 0 {
      FromToBytes(n / 256, width - 1);
      assert ToBytes(n, width)[1..] == ToBytes(n / 256, width - 1);
    }
  }

  lemma U64RoundTrip(n: nat)
    requires n < U64_LIMIT
    ensures FromBytes(U64(n)) == n
  {
    assert Pow256(4) == 0x1_0000_0000 && Pow256(8) == U64_LIMIT;
    FromToBytes(n, 8);
  }

  lemma {:induction false} ZeroBytes(width: nat, i: nat)
    requires i < width
    ensures ToBytes(0, width)[i] == '\0'
  {
    if i > 0 { ZeroBytes(width - 1, i - 1); }
  }

  /** A length below 2^16 occupies the two low bytes only. */
  lemma U64Small(n: nat)
    requires n < 0x1_0000
    ensures U64(n)[0] as int == n % 256 && U64(n)[1] as int == n / 256
    ensures forall i :: 2 <= i < 8 ==> U64(n)[i] == '\0'
  {
    assert U64(n)[1..] == ToBytes(n / 256, 7);
    assert ToBytes(n / 256, 7)[1..] == ToBytes(0, 6);
    forall i | 2 <= i < 8 ensures U64(n)[i] == '\0' {
      ZeroBytes(6, i - 2);
      assert U64(n)[i] == ToBytes(n / 256, 7)[i - 1] == ToBytes(0, 6)[i - 2];
    }
  }
}

/** The value stored in redis: a version byte and the bincode form of `CacheData`, three byte
    strings each preceded by its 64-bit little-endian length. */
module CacheData {
  import opened Text
  import opened LittleEndian

  datatype CacheData = CacheData(metaInternal: Bytes, metaHeader: Bytes, body: Bytes)

  datatype Decoded = Hit(data: CacheData) | BadVersion | Malformed | Panics

  ghost predicate Fits(d: CacheData) {
    |d.metaInternal| < U64_LIMIT && |d.metaHeader| < U64_LIMIT && |d.body| < U64_LIMIT
  }

  function Field(b: Bytes): Bytes { U64(|b|) + b }

  function Encode(d: CacheData): Bytes { "\0" + Field(d.metaInternal) + Field(d.metaHeader) + Field(d.body) }

  /** Reads one field; trailing bytes are left over, a short input is an error. */
  function ReadField(s: Bytes): Option<(Bytes, Bytes)> {
    if |s| < 8 then None
    else
      var n := FromBytes(s[..8]);
      if |s| - 8 < n then None else Some((s[8..8 + n], s[8 + n..]))
  }

  /** `lookup` from the fetched value on. Indexing the version byte of an empty value panics. */
  function Decode(s: Bytes): Decoded {
    if s == [] then Panics
    else if s[0] != '\0' then BadVersion
    else match ReadField(s[1..])
      case None => Malformed
      case Some(a) =>
        match ReadField(a.1)
        case None => Malformed
        case Some(b) =>
          match ReadField(b.1)
          case None => Malformed
          case Some(c) => Hit(CacheData(a.0, b.0, c.0))
  }

  lemma ReadFieldOf(b: Bytes, rest: Bytes)
    requires |b| < U64_LIMIT
    ensures ReadField(Field(b) + rest) == Some((b, rest))
  {
    var s := Field(b) + rest;
    assert s[..8] == U64(|b|);
    U64RoundTrip(|b|);
    assert s[8..8 + |b|] == b && s[8 + |b|..] == rest;
  }

  lemma EncodeShape(d: CacheData, rest: Bytes)
    ensures Encode(d) + rest == ['\0'] + (Field(d.metaInternal) + (Field(d.metaHeader) + (Field(d.body) + rest)))
  {
  }

  /** The layout: a zero version byte, then the two metadata parts and the body, each behind its
      length. */
  lemma EncodeLayout(d: CacheData)
    ensures var s, i, j, k := Encode(d), |d.metaInternal|, |d.metaHeader|, |d.body|;
            && |s| == 25 + i + j + k && s[0] == '\0'
            && s[1..9] == U64(i) && s[9..9 + i] == d.metaInternal
            && s[9 + i..17 + i] == U64(j) && s[17 + i..17 + i + j] == d.metaHeader
            && s[17 + i + j..25 + i + j] == U64(k) && s[25 + i + j..] == d.body
  {
  }

  /** Decoding an encoded value gives it back, whatever follows it. */
  lemma DecodeEncode(d: CacheData, rest: Bytes)
    requires Fits(d)
    ensures Decode(Encode(d) + rest) == Hit(d)
  {
    var s := Encode(d) + rest;
    var t3 := Field(d.body) + rest;
    var t2 := Field(d.metaHeader) + t3;
    EncodeShape(d, rest);
    assert s[1..] == Field(d.metaInternal) + t2;
    ReadFieldOf(d.metaInternal, t2);
    ReadFieldOf(d.metaHeader, t3);
    ReadFieldOf(d.body, rest);
  }

  lemma {:induction false} ToFromBytes(b: Bytes)
    ensures ToBytes(FromBytes(b), |b|) == b && FromBytes(b) < Pow256(|b|)
  {
    if b != [] {
      ToFromBytes(b[1..]);
      assert FromBytes(b) % 256 == b[0] as int && FromBytes(b) / 256 == FromBytes(b[1..]);
      assert b == [b[0]] + b[1..];
    }
  }

  lemma FieldOfRead(s: Bytes)
    requires ReadField(s).Some?
    ensures s == Field(ReadField(s).value.0) + ReadField(s).value.1 && |ReadField(s).value.0| < U64_LIMIT
  {
    ToFromBytes(s[..8]);
    assert Pow256(4) == 0x1_0000_0000 && Pow256(8) == U64_LIMIT;
    var n := FromBytes(s[..8]);
    assert s == s[..8] + s[8..8 + n] + s[8 + n..];
  }

  lemma EncodingOfDecoded(s: Bytes)
    requires Decode(s).Hit?
    ensures Fits(Decode(s).data) && Encode(Decode(s).data) <= s
  {
    var d := Decode(s).data;
    FieldOfRead(s[1..]);
    var a := ReadField(s[1..]).value;
    FieldOfRead(a.1);
    var b := ReadField(a.1).value;
    FieldOfRead(b.1);
    var c := ReadField(b.1).value;
    EncodeShape(d, c.1);
    assert s == ['\0'] + s[1..];
    assert s == Encode(d) + c.1;
  }

  /** The decoder accepts exactly the encodings, followed by anything. */
  lemma DecodeExact(s: Bytes, d: CacheData)
    ensures Decode(s) == Hit(d) <==> Fits(d) && Encode(d) <= s
  {
    if Decode(s) == Hit(d) { EncodingOfDecoded(s); }
    if Fits(d) && Encode(d) <= s {
      assert s == Encode(d) + s[|Encode(d)|..];
      DecodeEncode(d, s[|Encode(d)|..]);
    }
  }
}
