/** The hash of a namespace: 32-bit FNV-1a over its UTF-8 text. */
module Hashing {

  newtype Byte = n: int | 0 <= n < 0x100

  // ----- FNV-1a, 32 bits -----

  const FNV_OFFSET_BASIS: bv32 := 0x811C9DC5

  /** One byte, by the FNV prime. */
  function Mix(hash: bv32, byte: Byte): bv32 { (hash ^ (byte as bv32)) * 0x0100_0193 }

  function Fnv1a(bytes: seq<Byte>): bv32
  {
    if bytes == [] then FNV_OFFSET_BASIS else Mix(Fnv1a(bytes[..|bytes| - 1]), bytes[|bytes| - 1])
  }

  /** The states of the hash, byte by byte: from the offset basis, each byte is xored in and multiplied. */
  ghost predicate FnvStates(bytes: seq<Byte>, states: seq<bv32>)
  {
    && |states| == |bytes| + 1 && states[0] == 0x811C9DC5
    && forall i :: 0 <= i < |bytes| ==> MixedIn(states[i], bytes[i], states[i + 1])
  }

  predicate MixedIn(before: bv32, byte: Byte, after: bv32)
  {
    after == (before ^ (byte as bv32)) * 0x0100_0193
  }

  lemma MixIs(hash: bv32, byte: Byte)
    ensures MixedIn(hash, byte, Mix(hash, byte))
  {}

  lemma OneMoreState(front: seq<Byte>, states: seq<bv32>, byte: Byte, after: bv32)
    requires FnvStates(front, states) && MixedIn(states[|front|], byte, after)
    ensures FnvStates(front + [byte], states + [after])
  {
    forall i | 0 <= i < |front| + 1 ensures MixedIn((states + [after])[i], (front + [byte])[i], (states + [after])[i + 1]) {
      if i < |front| {
        assert MixedIn(states[i], front[i], states[i + 1]);
      }
    }
  }

  /** The hash is the last of these states. */
  lemma {:induction false} FnvEnds(bytes: seq<Byte>) returns (states: seq<bv32>)
    ensures FnvStates(bytes, states) && Fnv1a(bytes) == states[|bytes|]
    decreases |bytes|
  {
    if bytes == [] {
      states := [0x811C9DC5];
    } else {
      var front, last := bytes[..|bytes| - 1], bytes[|bytes| - 1];
      states := FnvEnds(front);
      MixIs(Fnv1a(front), last);
      OneMoreState(front, states, last, Fnv1a(bytes));
      states := states + [Fnv1a(bytes)];
      assert front + [last] == bytes;
    }
  }

  lemma OneMoreByte(front: seq<Byte>, byte: Byte)
    ensures Fnv1a(front + [byte]) == Mix(Fnv1a(front), byte)
  {
    assert (front + [byte])[..|front|] == front;
  }

  /** Published test vectors of 32-bit FNV-1a: the empty string, "a" and "foobar". */
  lemma FnvVectors()
    ensures Fnv1a([]) == 0x811C9DC5
    ensures Fnv1a([0x61]) == 0xE40C292C
    ensures Fnv1a([0x66, 0x6F, 0x6F, 0x62, 0x61, 0x72]) == 0xBF9CF968
  {
    OneMoreByte([], 0x61);
    assert [] + [0x61 as Byte] == [0x61];
    OneMoreByte([], 0x66);
    assert [] + [0x66 as Byte] == [0x66];
    OneMoreByte([0x66], 0x6F);
    assert [0x66] + [0x6F as Byte] == [0x66, 0x6F];
    OneMoreByte([0x66, 0x6F], 0x6F);
    assert [0x66, 0x6F] + [0x6F as Byte] == [0x66, 0x6F, 0x6F];
    OneMoreByte([0x66, 0x6F, 0x6F], 0x62);
    assert [0x66, 0x6F, 0x6F] + [0x62 as Byte] == [0x66, 0x6F, 0x6F, 0x62];
    OneMoreByte([0x66, 0x6F, 0x6F, 0x62], 0x61);
    assert [0x66, 0x6F, 0x6F, 0x62] + [0x61 as Byte] == [0x66, 0x6F, 0x6F, 0x62, 0x61];
    OneMoreByte([0x66, 0x6F, 0x6F, 0x62, 0x61], 0x72);
    assert [0x66, 0x6F, 0x6F, 0x62, 0x61] + [0x72 as Byte] == [0x66, 0x6F, 0x6F, 0x62, 0x61, 0x72];
    MixVectors();
  }

  /** The states of the hash over "a" and "foobar". */
  lemma MixVectors()
    ensures Mix(0x811C_9DC5, 0x61) == 0xE40C_292C
    ensures Mix(0x811C_9DC5, 0x66) == 0xE30C_2799
    ensures Mix(0xE30C_2799, 0x6F) == 0x6222_E842
    ensures Mix(0x6222_E842, 0x6F) == 0xA9F3_7ED7
    ensures Mix(0xA9F3_7ED7, 0x62) == 0x3F50_76EF
    ensures Mix(0x3F50_76EF, 0x61) == 0x39AA_A18A
    ensures Mix(0x39AA_A18A, 0x72) == 0xBF9C_F968
  {}

  // ----- UTF-8 -----

  /** The UTF-8 bytes of one character. */
  function Utf8Char(c: char): seq<Byte>
  {
    var u := c as int;
    if u < 0x80 then [u as Byte]
    else if u < 0x800 then [(0xC0 + u / 0x40) as Byte, (0x80 + u % 0x40) as Byte]
    else if u < 0x1_0000 then [(0xE0 + u / 0x1000) as Byte, (0x80 + u / 0x40 % 0x40) as Byte, (0x80 + u % 0x40) as Byte]
    else [(0xF0 + u / 0x4_0000) as Byte, (0x80 + u / 0x1000 % 0x40) as Byte, (0x80 + u / 0x40 % 0x40) as Byte,
          (0x80 + u % 0x40) as Byte]
  }

  function Utf8(s: string): seq<Byte>
  {
    if s == "" then [] else Utf8Char(s[0]) + Utf8(s[1..])
  }

  /** In ASCII text each character is its own byte. */
  lemma {:induction false} Utf8OfAscii(s: string)
    requires forall i :: 0 <= i < |s| ==> s[i] as int < 0x80
    ensures |Utf8(s)| == |s|
    ensures forall i :: 0 <= i < |s| ==> Utf8(s)[i] == s[i] as Byte
    decreases |s|
  {
    if s != "" {
      Utf8OfAscii(s[1..]);
      assert Utf8(s) == [s[0] as Byte] + Utf8(s[1..]);
    }
  }

  /** The length of a character's bytes, by the first of them. */
  function Width(lead: Byte): nat
  {
    if lead < 0x80 then 1 else if lead < 0xE0 then 2 else if lead < 0xF0 then 3 else 4
  }

  /** What a byte behind the first carries. */
  function Sextet(byte: Byte): int { byte as int - 0x80 }

  /** The code point in the first bytes of a text. */
  function FirstPoint(bytes: seq<Byte>): int
    requires bytes != [] && Width(bytes[0]) <= |bytes|
  {
    match Width(bytes[0])
    case 1 => bytes[0] as int
    case 2 => (bytes[0] as int - 0xC0) * 0x40 + Sextet(bytes[1])
    case 3 => (bytes[0] as int - 0xE0) * 0x1000 + Sextet(bytes[1]) * 0x40 + Sextet(bytes[2])
    case _ => (bytes[0] as int - 0xF0) * 0x4_0000 + Sextet(bytes[1]) * 0x1000 + Sextet(bytes[2]) * 0x40 + Sextet(bytes[3])
  }

  /** The least code point that takes this many bytes. */
  function LeastOf(width: nat): int
  {
    match width
    case 2 => 0x80
    case 3 => 0x800
    case 4 => 0x1_0000
    case _ => 0
  }

  /** A text starts with a character in as few bytes as it takes, each behind the first one marked as such. */
  predicate StartsWell(bytes: seq<Byte>)
  {
    && bytes != [] && Width(bytes[0]) <= |bytes|
    && (forall i :: 1 <= i < Width(bytes[0]) ==> 0 <= Sextet(bytes[i]) < 0x40)
    && FirstPoint(bytes) >= LeastOf(Width(bytes[0]))
  }

  /** The code points of a UTF-8 text, up to the first malformed one. */
  function Points(bytes: seq<Byte>): seq<int>
  {
    if !StartsWell(bytes) then [] else [FirstPoint(bytes)] + Points(bytes[Width(bytes[0])..])
  }

  ghost predicate FirstPointIs(c: char, rest: seq<Byte>)
  {
    var bytes := Utf8Char(c) + rest;
    StartsWell(bytes) && Width(bytes[0]) == |Utf8Char(c)| && FirstPoint(bytes) == c as int
  }

  lemma TwoBytes(c: char, rest: seq<Byte>)
    requires 0x80 <= c as int < 0x800
    ensures FirstPointIs(c, rest)
  {}

  lemma Sextets(u: nat) returns (a: nat, b: nat, c: nat, d: nat)
    requires u < 0x11_0000
    ensures a < 0x08 && b < 0x40 && c < 0x40 && d < 0x40
    ensures u == a * 0x4_0000 + b * 0x1000 + c * 0x40 + d
    ensures a == u / 0x4_0000 && b == u / 0x1000 % 0x40 && c == u / 0x40 % 0x40 && d == u % 0x40
    ensures u / 0x1000 == a * 0x40 + b
  {
    var p := u / 0x40;
    var q := p / 0x40;
    a, b, c, d := q / 0x40, q % 0x40, p % 0x40, u % 0x40;
    assert u / 0x1000 == q && u / 0x4_0000 == a;
  }

  lemma ThreeBytes(c: char, rest: seq<Byte>)
    requires 0x800 <= c as int < 0x1_0000
    ensures FirstPointIs(c, rest)
  {
    var w, x, y, z := Sextets(c as int);
    assert w * 0x40 + x < 0x10;
    var bytes := Utf8Char(c) + rest;
    assert bytes[0] as int == 0xE0 + (w * 0x40 + x) && Sextet(bytes[1]) == y && Sextet(bytes[2]) == z;
  }

  lemma FourBytes(c: char, rest: seq<Byte>)
    requires 0x1_0000 <= c as int
    ensures FirstPointIs(c, rest)
  {
    var w, x, y, z := Sextets(c as int);
    var bytes := Utf8Char(c) + rest;
    assert bytes[0] as int == 0xF0 + w && Sextet(bytes[1]) == x && Sextet(bytes[2]) == y && Sextet(bytes[3]) == z;
  }

  lemma FirstPoints(c: char, rest: seq<Byte>)
    ensures FirstPointIs(c, rest)
  {
    if 0x80 <= c as int < 0x800 {
      TwoBytes(c, rest);
    } else if 0x800 <= c as int < 0x1_0000 {
      ThreeBytes(c, rest);
    } else if 0x1_0000 <= c as int {
      FourBytes(c, rest);
    }
  }

  /** Decoding gives the characters back, in order. */
  lemma {:induction false} Utf8RoundTrip(s: string)
    ensures |Points(Utf8(s))| == |s|
    ensures forall i :: 0 <= i < |s| ==> Points(Utf8(s))[i] == s[i] as int
    decreases |s|
  {
    if s != "" {
      Utf8RoundTrip(s[1..]);
      FirstPoints(s[0], Utf8(s[1..]));
      assert Utf8(s)[|Utf8Char(s[0])|..] == Utf8(s[1..]);
      assert Points(Utf8(s)) == [s[0] as int] + Points(Utf8(s[1..]));
    }
  }
}
