// The checksum of the recovery journal: the reflected CRC-32 of section 8 of RFC 1952,
// computed one bit at a time.
module Crc {
  import opened Words

  type octet = bv8

  const POLYNOMIAL: bv32 := 0xedb88320
  const INITIAL: bv32 := 0xffff_ffff

  function Xor(a: bv32, b: bv32): bv32 { a ^ b }

  function Tap(c: bv32): bv32 { if c & 1 == 1 then POLYNOMIAL else 0 }

  // One bit of polynomial division.
  function Step(c: bv32): bv32 { (c >> 1) ^ Tap(c) }

  function Steps(n: nat, c: bv32): bv32 {
    if n == 0 then c else Step(Steps(n - 1, c))
  }

  function Feed(c: bv32, b: octet): bv32 { Steps(8, Xor(c, b as bv32)) }

  function Fold(c: bv32, s: seq<octet>): bv32 {
    if s == [] then c else Feed(Fold(c, s[..|s| - 1]), s[|s| - 1])
  }

  lemma MaskedStep(c: bv32)
    ensures (c >> 1) ^ (POLYNOMIAL & (0 - (c & 1))) == Step(c)
  {
    if c & 1 != 1 {
      assert c & 1 == 0;
    }
  }

  lemma ComplementIsXor(c: bv32)
    ensures !c == Xor(c, INITIAL)
  {}

  // ---- The step is a bijection of the register ----

  lemma XorCancel(a: bv32, b: bv32, x: bv32)
    ensures Xor(Xor(a, x), x) == a
    ensures Xor(a, x) == Xor(b, x) ==> a == b
    ensures Xor(a, x) == Xor(x, a)
  {}

  lemma StepInjective(a: bv32, b: bv32)
    requires Step(a) == Step(b)
    ensures a == b
  {}

  lemma {:induction false} StepsInjective(n: nat, a: bv32, b: bv32)
    requires Steps(n, a) == Steps(n, b)
    ensures a == b
  {
    if n > 0 {
      StepInjective(Steps(n - 1, a), Steps(n - 1, b));
      StepsInjective(n - 1, a, b);
    }
  }

  lemma {:induction false} FoldInjective(a: bv32, b: bv32, s: seq<octet>)
    requires Fold(a, s) == Fold(b, s)
    ensures a == b
  {
    if s != [] {
      var x := s[|s| - 1] as bv32;
      var (fa, fb) := (Fold(a, s[..|s| - 1]), Fold(b, s[..|s| - 1]));
      StepsInjective(8, Xor(fa, x), Xor(fb, x));
      XorCancel(fa, fb, x);
      FoldInjective(a, b, s[..|s| - 1]);
    }
  }

  lemma {:induction false} FoldConcat(c: bv32, s: seq<octet>, t: seq<octet>)
    ensures Fold(c, s + t) == Fold(Fold(c, s), t)
  {
    if t == [] {
      assert s + t == s;
    } else {
      var last := |s + t| - 1;
      assert (s + t)[..last] == s + t[..|t| - 1] && (s + t)[last] == t[|t| - 1];
      FoldConcat(c, s, t[..|t| - 1]);
    }
  }

  // ---- Linearity: bits above the low byte pass through eight steps unchanged ----

  ghost predicate Doubles(y: bv32, z: bv32) { y & 0x8000_0000 == 0 && z == y << 1 }

  ghost predicate Shifted(y: bv32, z: bv32) { y & 0xff00_0000 == 0 && z == y << 8 }

  lemma LowBit(x: bv32, y: bv32)
    ensures (x ^ (y << 1)) & 1 == x & 1
  {}

  lemma Halve(x: bv32, y: bv32)
    requires y & 0x8000_0000 == 0
    ensures (x ^ (y << 1)) >> 1 == (x >> 1) ^ y
  {}

  lemma XorSwap(a: bv32, b: bv32, c: bv32)
    ensures (a ^ b) ^ c == (a ^ c) ^ b
  {}

  lemma TapSame(x: bv32, y: bv32)
    ensures Tap(x ^ (y << 1)) == Tap(x)
  {
    LowBit(x, y);
  }

  lemma StepRaw(x: bv32, y: bv32)
    requires y & 0x8000_0000 == 0
    ensures Step(x ^ (y << 1)) == Step(x) ^ y
  {
    hide Tap;
    TapSame(x, y);
    Halve(x, y);
    XorSwap(x >> 1, y, Tap(x));
  }

  lemma StepLinear(x: bv32, y: bv32, z: bv32)
    requires Doubles(y, z)
    ensures Step(Xor(x, z)) == Xor(Step(x), y)
  {
    StepRaw(x, y);
  }

  lemma {:induction false} StepsLinear(x: bv32, n: nat, ys: seq<bv32>)
    requires |ys| == n + 1
    requires forall i :: 0 <= i < n ==> Doubles(ys[i], ys[i + 1])
    ensures Steps(n, Xor(x, ys[n])) == Xor(Steps(n, x), ys[0])
  {
    if n > 0 {
      StepsLinear(x, n - 1, ys[1..]);
      StepLinear(Steps(n - 1, x), ys[0], ys[1]);
    }
  }

  lemma Doublings(y: bv32, z: bv32) returns (ys: seq<bv32>)
    requires Shifted(y, z)
    ensures |ys| == 9 && ys[0] == y && ys[8] == z
    ensures forall i :: 0 <= i < 8 ==> Doubles(ys[i], ys[i + 1])
  {
    ys := [y, y << 1, y << 2, y << 3, y << 4, y << 5, y << 6, y << 7, y << 8];
    assert Doubles(y, y << 1) && Doubles(y << 1, y << 2) && Doubles(y << 2, y << 3);
    assert Doubles(y << 3, y << 4) && Doubles(y << 4, y << 5) && Doubles(y << 5, y << 6);
    assert Doubles(y << 6, y << 7) && Doubles(y << 7, y << 8);
  }

  lemma EightSteps(x: bv32, y: bv32, z: bv32)
    requires Shifted(y, z)
    ensures Steps(8, Xor(x, z)) == Xor(Steps(8, x), y)
  {
    var ys := Doublings(y, z);
    StepsLinear(x, 8, ys);
  }

  // The table-driven form given in section 8 of RFC 1952 computes the same register.
  lemma FeedIsTableLookup(c: bv32, b: octet)
    ensures Feed(c, b) == Xor(Steps(8, Xor(c, b as bv32) & 0xff), c >> 8)
  {
    var (x, low, high, z) := (Xor(c, b as bv32), Xor(c, b as bv32) & 0xff, c >> 8, (c >> 8) << 8);
    SplitLow(c, b);
    EightSteps(low, high, z);
  }

  lemma SplitLow(c: bv32, b: octet)
    ensures Xor(c, b as bv32) == Xor(Xor(c, b as bv32) & 0xff, (c >> 8) << 8)
    ensures Shifted(c >> 8, (c >> 8) << 8)
  {}

  // ---- Four bytes act on the register as one word ----

  function Packed(x0: bv32, x1: bv32, x2: bv32, x3: bv32): bv32 {
    x0 | (x1 << 8) | (x2 << 16) | (x3 << 24)
  }

  function Joined(p: seq<octet>): bv32
    requires |p| == 4
  {
    Packed(p[0] as bv32, p[1] as bv32, p[2] as bv32, p[3] as bv32)
  }

  function Lanes(w: bv32): (p: seq<octet>)
    ensures |p| == 4
  {
    [(w & 0xff) as bv8, ((w >> 8) & 0xff) as bv8, ((w >> 16) & 0xff) as bv8, ((w >> 24) & 0xff) as bv8]
  }

  lemma LanesJoined(p: seq<octet>)
    requires |p| == 4
    ensures Lanes(Joined(p)) == p
  {}

  lemma JoinedLanes(w: bv32)
    ensures Joined(Lanes(w)) == w
  {}

  function FourBytes(x: bv32): bv32 { Steps(8, Steps(8, Steps(8, Steps(8, x)))) }

  lemma FourBytesInjective(a: bv32, b: bv32)
    requires FourBytes(a) == FourBytes(b)
    ensures a == b
  {
    StepsInjective(8, Steps(8, Steps(8, Steps(8, a))), Steps(8, Steps(8, Steps(8, b))));
    StepsInjective(8, Steps(8, Steps(8, a)), Steps(8, Steps(8, b)));
    StepsInjective(8, Steps(8, a), Steps(8, b));
    StepsInjective(8, a, b);
  }

  lemma XorAssociates(a: bv32, b: bv32, c: bv32)
    ensures Xor(a, Xor(b, c)) == Xor(Xor(a, b), c)
  {}

  lemma PackedIsXor(x0: bv32, x1: bv32, x2: bv32, x3: bv32)
    requires x0 <= 0xff && x1 <= 0xff && x2 <= 0xff && x3 <= 0xff
    ensures x0 | (x1 << 8) | (x2 << 16) | (x3 << 24) == ((x0 ^ (x1 << 8)) ^ (x2 << 16)) ^ (x3 << 24)
  {}

  lemma PackedLanes(c: bv32, x0: bv32, x1: bv32, x2: bv32, x3: bv32)
    requires x0 <= 0xff && x1 <= 0xff && x2 <= 0xff && x3 <= 0xff
    ensures Xor(c, Packed(x0, x1, x2, x3)) == Xor(Xor(Xor(Xor(c, x0), x1 << 8), x2 << 16), x3 << 24)
  {
    hide Xor, Packed;
    var (y1, y2, y3) := (x1 << 8, x2 << 16, x3 << 24);
    assert Packed(x0, x1, x2, x3) == Xor(Xor(Xor(x0, y1), y2), y3) by { PackedXor(x0, x1, x2, x3); }
    XorAssociates(c, Xor(Xor(x0, y1), y2), y3);
    XorAssociates(c, Xor(x0, y1), y2);
    XorAssociates(c, x0, y1);
  }

  lemma PackedXor(x0: bv32, x1: bv32, x2: bv32, x3: bv32)
    requires x0 <= 0xff && x1 <= 0xff && x2 <= 0xff && x3 <= 0xff
    ensures Packed(x0, x1, x2, x3) == Xor(Xor(Xor(x0, x1 << 8), x2 << 16), x3 << 24)
  {
    PackedIsXor(x0, x1, x2, x3);
  }

  lemma SmallOctet(x: octet)
    ensures (x as bv32) <= 0xff
  {}

  lemma SpreadLanes(c: bv32, p: seq<octet>)
    requires |p| == 4
    ensures Xor(c, Joined(p)) == Xor(Xor(Xor(Xor(c, p[0] as bv32), (p[1] as bv32) << 8), (p[2] as bv32) << 16),
      (p[3] as bv32) << 24)
  {
    hide Xor, Packed;
    SmallOctet(p[0]);
    SmallOctet(p[1]);
    SmallOctet(p[2]);
    SmallOctet(p[3]);
    PackedLanes(c, p[0] as bv32, p[1] as bv32, p[2] as bv32, p[3] as bv32);
  }

  lemma ShiftedOctet(x: octet)
    ensures Shifted(x as bv32, (x as bv32) << 8)
    ensures Shifted((x as bv32) << 8, (x as bv32) << 16)
    ensures Shifted((x as bv32) << 16, (x as bv32) << 24)
  {}

  lemma FoldFour(c: bv32, p: seq<octet>)
    requires |p| == 4
    ensures Fold(c, p) == Feed(Feed(Feed(Feed(c, p[0]), p[1]), p[2]), p[3])
  {
    assert p == [p[0], p[1], p[2], p[3]];
    assert p[..3] == [p[0], p[1], p[2]];
    assert p[..3][..2] == [p[0], p[1]];
    assert [p[0], p[1]][..1] == [p[0]];
    assert Fold(c, [p[0]]) == Feed(c, p[0]);
    assert Fold(c, [p[0], p[1]]) == Feed(Feed(c, p[0]), p[1]);
    assert Fold(c, p[..3]) == Feed(Fold(c, p[..3][..2]), p[2]);
  }

  lemma FoldWord(c: bv32, p: seq<octet>)
    requires |p| == 4
    ensures Fold(c, p) == FourBytes(Xor(c, Joined(p)))
  {
    FoldFour(c, p);
    SpreadLanes(c, p);
    ShiftedOctet(p[1]);
    ShiftedOctet(p[2]);
    ShiftedOctet(p[3]);
    var b1 := (p[1] as bv32) << 8;
    var (b2', b2) := ((p[2] as bv32) << 8, (p[2] as bv32) << 16);
    var (b3'', b3', b3) := ((p[3] as bv32) << 8, (p[3] as bv32) << 16, (p[3] as bv32) << 24);
    LanesPass(Xor(c, p[0] as bv32), p[1] as bv32, b1, p[2] as bv32, b2', b2, p[3] as bv32, b3'', b3', b3);
  }

  lemma TwoBytesPass(x: bv32, y: bv32, b': bv32, b: bv32)
    requires Shifted(y, b') && Shifted(b', b)
    ensures Steps(8, Steps(8, Xor(x, b))) == Xor(Steps(8, Steps(8, x)), y)
  {
    EightSteps(x, b', b);
    EightSteps(Steps(8, x), y, b');
  }

  lemma ThreeBytesPass(x: bv32, y: bv32, b'': bv32, b': bv32, b: bv32)
    requires Shifted(y, b'') && Shifted(b'', b') && Shifted(b', b)
    ensures Steps(8, Steps(8, Steps(8, Xor(x, b)))) == Xor(Steps(8, Steps(8, Steps(8, x))), y)
  {
    EightSteps(x, b', b);
    TwoBytesPass(Steps(8, x), y, b'', b');
  }

  lemma LanesPass(x0: bv32, y1: bv32, b1: bv32, y2: bv32, b2': bv32, b2: bv32, y3: bv32, b3'': bv32, b3': bv32,
                  b3: bv32)
    requires Shifted(y1, b1) && Shifted(y2, b2') && Shifted(b2', b2)
    requires Shifted(y3, b3'') && Shifted(b3'', b3') && Shifted(b3', b3)
    ensures FourBytes(Xor(Xor(Xor(x0, b1), b2), b3)) ==
            Steps(8, Xor(Steps(8, Xor(Steps(8, Xor(Steps(8, x0), y1)), y2)), y3))
  {
    ThreeBytesPass(Xor(Xor(x0, b1), b2), y3, b3'', b3', b3);
    TwoBytesPass(Xor(x0, b1), y2, b2', b2);
    EightSteps(x0, y1, b1);
  }

  lemma FoldWordInjective(c: bv32, p: seq<octet>, q: seq<octet>)
    requires |p| == |q| == 4 && Fold(c, p) == Fold(c, q)
    ensures p == q
  {
    FoldWord(c, p);
    FoldWord(c, q);
    FourBytesInjective(Xor(c, Joined(p)), Xor(c, Joined(q)));
    XorCancel(Joined(p), Joined(q), c);
    XorCancel(Joined(q), Joined(p), c);
    LanesJoined(p);
    LanesJoined(q);
  }

  // ---- Every change confined to four consecutive bytes changes the register ----

  lemma BurstChangesFold(c: bv32, p: seq<octet>, a: seq<octet>, b: seq<octet>, q: seq<octet>)
    requires |a| == |b| <= 4 && a != b
    ensures Fold(c, p + a + q) != Fold(c, p + b + q)
  {
    if Fold(c, p + a + q) == Fold(c, p + b + q) {
      FoldConcat(c, p + a, q);
      FoldConcat(c, p + b, q);
      FoldInjective(Fold(c, p + a), Fold(c, p + b), q);
      FoldConcat(c, p, a);
      FoldConcat(c, p, b);
      PaddedFoldInjective(Fold(c, p), a, b);
    }
  }

  lemma PaddedFoldInjective(c: bv32, a: seq<octet>, b: seq<octet>)
    requires |a| == |b| <= 4 && Fold(c, a) == Fold(c, b)
    ensures a == b
  {
    var pad := seq(4 - |a|, _ => 0 as octet);
    FoldConcat(c, a, pad);
    FoldConcat(c, b, pad);
    FoldWordInjective(c, a + pad, b + pad);
    assert a == (a + pad)[..|a|] && b == (b + pad)[..|b|];
  }

  // ---- The checksum of a file's bytes ----

  function Octets(s: seq<byte>): (r: seq<octet>)
    ensures |r| == |s|
  {
    seq(|s|, i requires 0 <= i < |s| => s[i] as bv8)
  }

  function ByteOf(x: octet): byte { x as int }

  lemma ByteOctet(b: byte)
    ensures ByteOf(b as bv8) == b
  {}

  lemma OctetByte(x: octet)
    ensures ByteOf(x) as bv8 == x
  {}

  function BytesOf(p: seq<octet>): (r: seq<byte>)
    ensures |r| == |p|
  {
    seq(|p|, i requires 0 <= i < |p| => ByteOf(p[i]))
  }

  lemma BytesOctets(s: seq<byte>)
    ensures BytesOf(Octets(s)) == s
  {
    forall i | 0 <= i < |s| ensures BytesOf(Octets(s))[i] == s[i] {
      ByteOctet(s[i]);
    }
  }

  lemma OctetsBytes(p: seq<octet>)
    ensures Octets(BytesOf(p)) == p
  {
    forall i | 0 <= i < |p| ensures Octets(BytesOf(p))[i] == p[i] {
      OctetByte(p[i]);
    }
  }

  function Register(s: seq<byte>): bv32 { Fold(INITIAL, Octets(s)) }

  function NumberOf(w: bv32): uint32 {
    Get32(BytesOf(Lanes(w)))
  }

  function Checksum(s: seq<byte>): uint32 {
    NumberOf(Xor(Register(s), INITIAL))
  }

  lemma NumberInjective(v: bv32, w: bv32)
    requires NumberOf(v) == NumberOf(w)
    ensures v == w
  {
    PutGet(BytesOf(Lanes(v)));
    PutGet(BytesOf(Lanes(w)));
    OctetsBytes(Lanes(v));
    OctetsBytes(Lanes(w));
    JoinedLanes(v);
    JoinedLanes(w);
  }

  // checksum(): the nested loop over the register.
  method ComputeChecksum(bytes: seq<byte>, size: nat) returns (sum: uint32)
    requires size <= |bytes|
    ensures sum == Checksum(bytes[..size])
  {
    var (crc, octets) := (INITIAL, Octets(bytes));
    for i := 0 to size
      invariant crc == Fold(INITIAL, octets[..i])
    {
      crc := Xor(crc, octets[i] as bv32);
      ghost var start := crc;
      for bit := 0 to 8
        invariant crc == Steps(bit, start)
      {
        MaskedStep(crc);
        crc := (crc >> 1) ^ (POLYNOMIAL & (0 - (crc & 1)));
      }
      assert octets[..i + 1][..i] == octets[..i];
    }
    ComplementIsXor(crc);
    assert octets[..size] == Octets(bytes[..size]);
    sum := NumberOf(!crc);
  }

  lemma OctetsJoin(p: seq<byte>, a: seq<byte>, q: seq<byte>)
    ensures Octets(p + a + q) == Octets(p) + Octets(a) + Octets(q)
  {}

  lemma BurstChangesRegister(p: seq<byte>, a: seq<byte>, b: seq<byte>, q: seq<byte>)
    requires |a| == |b| <= 4 && a != b
    ensures Register(p + a + q) != Register(p + b + q)
  {
    BytesOctets(a);
    BytesOctets(b);
    OctetsJoin(p, a, q);
    OctetsJoin(p, b, q);
    BurstChangesFold(INITIAL, Octets(p), Octets(a), Octets(b), Octets(q));
  }

  lemma BurstChangesChecksum(p: seq<byte>, a: seq<byte>, b: seq<byte>, q: seq<byte>)
    requires |a| == |b| <= 4 && a != b
    ensures Checksum(p + a + q) != Checksum(p + b + q)
  {
    BurstChangesRegister(p, a, b, q);
    var (x, y) := (Register(p + a + q), Register(p + b + q));
    if Checksum(p + a + q) == Checksum(p + b + q) {
      NumberInjective(Xor(x, INITIAL), Xor(y, INITIAL));
      XorCancel(x, y, INITIAL);
    }
  }

  // A message followed by its own checksum always leaves the same register, and only that
  // checksum does: "the stored digest matches" is a property of all the bytes together.
  const RESIDUE: bv32 := FourBytes(INITIAL)

  lemma DigestResidue(s: seq<byte>, d: seq<byte>)
    requires |d| == 4
    ensures Register(s + d) == RESIDUE <==> Get32(d) == Checksum(s)
  {
    var (r, w) := (Register(s), Joined(Octets(d)));
    assert Octets(s + d) == Octets(s) + Octets(d);
    FoldConcat(INITIAL, Octets(s), Octets(d));
    FoldWord(r, Octets(d));
    LanesJoined(Octets(d));
    BytesOctets(d);
    assert NumberOf(w) == Get32(d);
    XorCancel(INITIAL, w, r);
    if Register(s + d) == RESIDUE {
      FourBytesInjective(Xor(r, w), INITIAL);
      XorCancel(w, INITIAL, r);
    } else if Get32(d) == Checksum(s) {
      NumberInjective(w, Xor(r, INITIAL));
      SelfXor(r, INITIAL);
    }
  }

  lemma SelfXor(r: bv32, x: bv32)
    ensures Xor(r, Xor(r, x)) == x
  {}
}
