// Bytes, and little-endian 32-bit words: the units of the recovery journal's file format.
module Words {
  type byte = b: int | 0 <= b < 256

  type uint32 = n: int | 0 <= n < 0x1_0000_0000

  const TWO32: nat := 0x1_0000_0000
  const TWO64: nat := 0x1_0000_0000_0000_0000

  // k bytes, least significant first, and the number they stand for.
  function Digits(n: nat, k: nat): (p: seq<byte>)
    ensures |p| == k
  {
    if k == 0 then [] else [n % 256] + Digits(n / 256, k - 1)
  }

  function Number(p: seq<byte>): nat {
    if p == [] then 0 else (p[0] as int) + 256 * Number(p[1..])
  }

  function Limit(k: nat): nat { if k == 0 then 1 else 256 * Limit(k - 1) }

  lemma {:induction false} NumberDigits(n: nat, k: nat)
    requires n < Limit(k)
    ensures Number(Digits(n, k)) == n
  {
    if k > 0 {
      NumberDigits(n / 256, k - 1);
      assert Digits(n, k)[1..] == Digits(n / 256, k - 1);
    }
  }

  lemma Split(a: byte, q: nat)
    ensures ((a as int) + 256 * q) % 256 == a && ((a as int) + 256 * q) / 256 == q
  {}

  lemma {:induction false} DigitsNumber(p: seq<byte>)
    ensures Number(p) < Limit(|p|) && Digits(Number(p), |p|) == p
  {
    if p != [] {
      DigitsNumber(p[1..]);
      Split(p[0], Number(p[1..]));
    }
  }

  lemma FourBytesLimit()
    ensures Limit(4) == TWO32
  {
    assert Limit(2) == 65536;
    assert Limit(3) == 16777216;
  }

  // put32 / get32
  function Put32(n: uint32): (p: seq<byte>)
    ensures |p| == 4
  {
    Digits(n, 4)
  }

  function Get32(p: seq<byte>): uint32
    requires |p| == 4
  {
    DigitsNumber(p);
    FourBytesLimit();
    Number(p)
  }

  lemma GetPut(n: uint32)
    ensures Get32(Put32(n)) == n
  {
    FourBytesLimit();
    NumberDigits(n, 4);
  }

  lemma PutGet(p: seq<byte>)
    requires |p| == 4
    ensures Put32(Get32(p)) == p
  {
    DigitsNumber(p);
  }

  // The lowest byte comes first.
  lemma LittleEndian(p: seq<byte>)
    requires |p| == 4
    ensures Get32(p) == (p[0] as int) + 0x100 * (p[1] as int) + 0x1_0000 * (p[2] as int) + 0x100_0000 * (p[3] as int)
  {
    assert Number(p[3..]) == p[3];
    assert Number(p[2..]) == (p[2] as int) + 256 * (p[3] as int);
    assert Number(p[1..]) == (p[1] as int) + 256 * ((p[2] as int) + 256 * (p[3] as int));
  }
}
