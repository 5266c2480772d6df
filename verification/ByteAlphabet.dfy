/** The byte alphabet of engine/tokenizer.cpp:17-42 and 715-734: every byte has its
    own printable character, and a string of them reads back in one way only. */
module ByteAlphabet {
  import opened Graph

  predicate Printable(b: nat) {
    0x21 <= b <= 0x7E || 0xA1 <= b <= 0xAC || 0xAE <= b <= 0xFF
  }

  /** The bytes below `b` that are not printable. */
  function Skipped(b: nat): nat {
    if b == 0 then 0 else Skipped(b - 1) + if Printable(b - 1) then 0 else 1
  }

  lemma SkippedIs(b: nat)
    requires b <= 256
    ensures Skipped(b) == if b <= 0x21 then b else if b <= 0x7F then 0x21 else if b <= 0xA1 then b - 0x5E
                          else if b <= 0xAD then 0x43 else 0x44
  {
  }

  function CodePoint(b: nat): nat {
    if Printable(b) then b else 256 + Skipped(b)
  }

  function ToUtf8(cp: nat): Bytes
    requires cp < 0x10000
  {
    if cp < 0x80 then [cp as char]
    else if cp < 0x800 then [(0xC0 + cp / 64) as char, (0x80 + cp % 64) as char]
    else [(0xE0 + cp / 4096) as char, (0x80 + cp / 64 % 64) as char, (0x80 + cp % 64) as char]
  }

  /** The character of a byte. */
  function Symbol(b: byte): Bytes {
    SkippedIs(b as int);
    ToUtf8(CodePoint(b as int))
  }

  /** One ASCII byte, or two bytes of which the first says so. */
  lemma SymbolShape(b: byte)
    ensures |Symbol(b)| == 1 || |Symbol(b)| == 2
    ensures |Symbol(b)| == 1 ==> 0x21 <= Symbol(b)[0] as int <= 0x7E && Symbol(b)[0] == b
    ensures |Symbol(b)| == 2 ==> 0xC2 <= Symbol(b)[0] as int <= 0xC5 && 0x80 <= Symbol(b)[1] as int < 0xC0
  {
    SkippedIs(b as int);
  }

  lemma SymbolsDiffer(a: byte, b: byte)
    requires Symbol(a) == Symbol(b)
    ensures a == b
  {
    SkippedIs(a as int);
    SkippedIs(b as int);
    Utf8Differs(CodePoint(a as int), CodePoint(b as int));
    CodePointsDiffer(a as int, b as int);
  }

  lemma Utf8Differs(x: nat, y: nat)
    requires x < 0x800 && y < 0x800 && ToUtf8(x) == ToUtf8(y)
    ensures x == y
  {
    if x >= 0x80 {
      assert x / 64 == y / 64 && x % 64 == y % 64;
    }
  }

  lemma CodePointsDiffer(a: nat, b: nat)
    requires a < 256 && b < 256 && CodePoint(a) == CodePoint(b)
    ensures a == b
  {
    SkippedIs(a);
    SkippedIs(b);
  }

  function Encoded(raw: Bytes): Bytes {
    if raw == [] then [] else Symbol(raw[0]) + Encoded(raw[1..])
  }

  lemma {:induction false} EncodedAppend(a: Bytes, b: Bytes)
    ensures Encoded(a + b) == Encoded(a) + Encoded(b)
  {
    if a == [] {
      assert a + b == b;
    } else {
      assert (a + b)[1..] == a[1..] + b;
      EncodedAppend(a[1..], b);
    }
  }

  /** The reverse table. */
  ghost predicate IsDecoder(d: map<Bytes, byte>) {
    && (forall b: byte :: Symbol(b) in d && d[Symbol(b)] == b)
    && (forall s <- d :: Symbol(d[s]) == s)
  }

  /** build_byte_tables. */
  method BuildByteTables() returns (encoder: map<byte, Bytes>, decoder: map<Bytes, byte>)
    ensures forall b: byte :: b in encoder && encoder[b] == Symbol(b)
    ensures IsDecoder(decoder)
  {
    var bytes, points := AlphabetOrder();
    encoder, decoder := map[], map[];
    for i := 0 to |bytes|
      invariant forall b: byte :: b in encoder <==> b in bytes[..i]
      invariant forall b <- encoder :: encoder[b] == Symbol(b) && Symbol(b) in decoder && decoder[Symbol(b)] == b
      invariant forall s <- decoder :: Symbol(decoder[s]) == s
    {
      var u := ToUtf8(points[i]);
      assert u == Symbol(bytes[i]);
      forall b: byte | b in encoder && Symbol(b) == u
        ensures b == bytes[i]
      {
        SymbolsDiffer(b, bytes[i]);
      }
      encoder, decoder := encoder[bytes[i] := u], decoder[u := bytes[i]];
    }
    assert bytes[..|bytes|] == bytes;
  }

  /** Printable bytes stand for themselves; the others follow from 256 on. */
  method AlphabetOrder() returns (bytes: seq<byte>, points: seq<nat>)
    ensures |bytes| == |points| && forall b: byte :: b in bytes
    ensures forall i :: 0 <= i < |bytes| ==> points[i] == CodePoint(bytes[i] as int) < 0x800
  {
    bytes, points := [], [];
    bytes, points := AddRange(bytes, points, 0x21, 0x7E);
    bytes, points := AddRange(bytes, points, 0xA1, 0xAC);
    bytes, points := AddRange(bytes, points, 0xAE, 0xFF);
    var n := 0;
    for b := 0 to 256
      invariant |bytes| == |points| && n == Skipped(b)
      invariant forall c: byte :: c in bytes <==> Printable(c as int) || (c as int) < b
      invariant forall i :: 0 <= i < |bytes| ==> points[i] == CodePoint(bytes[i] as int) < 0x800
    {
      SkippedIs(b);
      if (b as char) !in bytes {
        bytes, points, n := bytes + [b as char], points + [256 + n], n + 1;
      }
    }
  }

  method AddRange(bytes0: seq<byte>, points0: seq<nat>, from: nat, to: nat) returns (bytes: seq<byte>, points: seq<nat>)
    requires |bytes0| == |points0| && from <= to < 256 && forall b :: from <= b <= to ==> Printable(b)
    requires forall i :: 0 <= i < |bytes0| ==> points0[i] == CodePoint(bytes0[i] as int) < 0x800
    ensures |bytes| == |points| && forall c: byte :: c in bytes <==> c in bytes0 || from <= c as int <= to
    ensures forall i :: 0 <= i < |bytes| ==> points[i] == CodePoint(bytes[i] as int) < 0x800
  {
    bytes, points := bytes0, points0;
    for b := from to to + 1
      invariant |bytes| == |points| && forall c: byte :: c in bytes <==> c in bytes0 || from <= c as int < b
      invariant forall i :: 0 <= i < |bytes| ==> points[i] == CodePoint(bytes[i] as int) < 0x800
    {
      bytes, points := bytes + [b as char], points + [b];
    }
  }

  // ---- reading back ----

  /** The characters matched at each place, longest first; anything else stands
      for itself. */
  function Unit(d: map<Bytes, byte>, s: Bytes): (r: (byte, nat))
    requires s != []
    ensures 1 <= r.1 <= |s|
  {
    if |s| >= 3 && s[..3] in d then (d[s[..3]], 3)
    else if |s| >= 2 && s[..2] in d then (d[s[..2]], 2)
    else if s[..1] in d then (d[s[..1]], 1)
    else (s[0], 1)
  }

  function Decoded(d: map<Bytes, byte>, s: Bytes): Bytes
    decreases |s|
  {
    if s == [] then [] else [Unit(d, s).0] + Decoded(d, s[Unit(d, s).1..])
  }

  /** unicode_to_bytes. */
  method UnicodeToBytes(d: map<Bytes, byte>, s: Bytes) returns (out: Bytes)
    ensures out == Decoded(d, s)
  {
    out := [];
    var i := 0;
    assert s[0..] == s;
    while i < |s|
      invariant 0 <= i <= |s| && out + Decoded(d, s[i..]) == Decoded(d, s)
    {
      var b, step := MatchAt(d, s[i..]);
      assert s[i..][step..] == s[i + step..];
      out := out + [b];
      i := i + step;
    }
    assert s[i..] == [];
  }

  method MatchAt(d: map<Bytes, byte>, s: Bytes) returns (b: byte, step: nat)
    requires s != []
    ensures Unit(d, s) == (b, step)
  {
    var length := 3;
    while length >= 1
      invariant 0 <= length <= 3 && forall l :: length < l <= 3 && l <= |s| ==> s[..l] !in d
    {
      if length <= |s| && s[..length] in d {
        return d[s[..length]], length;
      }
      length := length - 1;
    }
    return s[0], 1;
  }

  /** bytes_to_unicode. */
  method BytesToUnicode(encoder: map<byte, Bytes>, raw: Bytes) returns (out: Bytes)
    requires forall b: byte :: b in encoder && encoder[b] == Symbol(b)
    ensures out == Encoded(raw)
  {
    out := [];
    for i := 0 to |raw|
      invariant out == Encoded(raw[..i])
    {
      assert raw[..i + 1] == raw[..i] + [raw[i]];
      EncodedAppend(raw[..i], [raw[i]]);
      assert Encoded([raw[i]]) == Symbol(raw[i]) + [];
      out := out + encoder[raw[i]];
    }
    assert raw[..|raw|] == raw;
  }

  lemma UnitOfSymbol(d: map<Bytes, byte>, b: byte, rest: Bytes)
    requires IsDecoder(d)
    ensures Unit(d, Symbol(b) + rest) == (b, |Symbol(b)|)
  {
    var s := Symbol(b) + rest;
    SymbolShape(b);
    assert s[..|Symbol(b)|] == Symbol(b);
    forall l | 1 <= l <= 3 && l <= |s| && s[..l] in d
      ensures l <= |Symbol(b)|
    {
      var c := d[s[..l]];
      SymbolShape(c);
      assert Symbol(c)[0] == s[0] == Symbol(b)[0];
    }
  }

  /** The byte alphabet is a code: reading back undoes spelling out, also in front
      of anything else. */
  lemma {:induction false} DecodedEncoded(d: map<Bytes, byte>, raw: Bytes, rest: Bytes)
    requires IsDecoder(d)
    ensures Decoded(d, Encoded(raw) + rest) == raw + Decoded(d, rest)
  {
    hide Unit, Symbol, IsDecoder;
    if raw == [] {
      assert Encoded(raw) + rest == rest;
    } else {
      var tail := Encoded(raw[1..]) + rest;
      assert Encoded(raw) + rest == Symbol(raw[0]) + tail;
      UnitOfSymbol(d, raw[0], tail);
      DecodedEncoded(d, raw[1..], rest);
      assert (Symbol(raw[0]) + tail)[|Symbol(raw[0])|..] == tail;
    }
  }

  /** A string without a lead byte of the alphabet stands for itself: all ASCII
      strings do. */
  lemma {:induction false} StandsForItself(d: map<Bytes, byte>, s: Bytes)
    requires IsDecoder(d) && forall i :: 0 <= i < |s| ==> !(0xC2 <= s[i] as int <= 0xC5)
    ensures Decoded(d, s) == s
  {
    if s != [] {
      forall l | 1 <= l <= 3 && l <= |s| && s[..l] in d
        ensures l == 1 && d[s[..l]] == s[0]
      {
        SymbolShape(d[s[..l]]);
      }
      assert Unit(d, s) == (s[0], 1);
      StandsForItself(d, s[1..]);
    }
  }
}
