// What the checksum is, apart from how it is computed: polynomial division over GF(2), as the CRC-32
// of section 8 of RFC 1952 prescribes it.
module Division {
  import opened Words
  import opened Crc

  // A polynomial is the set of the exponents whose coefficient is one.
  type Polynomial = set<nat>

  function Plus(a: Polynomial, b: Polynomial): Polynomial { (a - b) + (b - a) }

  function Times(a: Polynomial, n: nat): Polynomial { set e <- a :: e + n }

  const GENERATOR: Polynomial := {32, 26, 23, 22, 16, 12, 11, 10, 8, 7, 5, 4, 2, 1, 0}

  function Below(n: nat): Polynomial { if n == 0 then {} else Below(n - 1) + {n - 1} }

  lemma {:induction false} InBelow(n: nat)
    ensures forall e: nat :: e in Below(n) <==> e < n
  {
    if n > 0 { InBelow(n - 1); }
  }

  function Term(t: bool): Polynomial { if t then GENERATOR else {} }

  // The multiple of the generator by a quotient, whose highest coefficient comes first.
  function Multiple(q: seq<bool>): Polynomial {
    if q == [] then {} else Plus(Times(Multiple(q[..|q| - 1]), 1), Term(q[|q| - 1]))
  }

  // ---- Registers and messages as polynomials ----

  function And(a: bv32, b: bv32): bv32 { a & b }

  function Half(a: bv32): bv32 { a >> 1 }

  // The register is reflected: its highest bit is the constant term.
  function Mask(i: nat): bv32
    requires i < 32
  {
    if i == 0 then 0x8000_0000 else Half(Mask(i - 1))
  }

  predicate Has(w: bv32, i: nat)
    requires i < 32
  {
    And(w, Mask(i)) != 0
  }

  function Poly(w: bv32): Polynomial { set i: nat | i < 32 && Has(w, i) }

  function Wide(b: octet): bv32 { b as bv32 }

  // The bits of an octet come lowest first.
  predicate HasBit(b: octet, i: nat) { i < 8 && Has(Wide(b), 24 + i) }

  function Bits(b: octet): Polynomial { set i: nat | i < 8 && HasBit(b, i) }

  // A message's first bit is its highest coefficient.
  function Message(s: seq<octet>): Polynomial {
    if s == [] then {} else Plus(Times(Message(s[..|s| - 1]), 8), Bits(s[|s| - 1]))
  }

  // What is divided: the message with 32 zero bits after it, its first 32 bits inverted.
  function Dividend(s: seq<octet>): Polynomial { Plus(Times(Message(s), 32), Times(Below(32), 8 * |s|)) }

  // The register after a message is the remainder of this division.
  lemma RegisterIsRemainder(s: seq<octet>) returns (q: seq<bool>)
    ensures Plus(Dividend(s), Poly(Fold(INITIAL, s))) == Multiple(q)
    ensures Poly(Fold(INITIAL, s)) <= Below(32)
  {
    InBelow(32);
    q := Divide(s);
    DividendHorner(s);
  }

  // And it is the only one: whatever else leaves a multiple of the generator is too large.
  lemma RemainderIsUnique(s: seq<octet>, r: Polynomial, q: seq<bool>)
    requires r <= Below(32) && Plus(Dividend(s), r) == Multiple(q)
    ensures r == Poly(Fold(INITIAL, s))
  {
    hide Multiple, Dividend, Poly;
    var p := RegisterIsRemainder(s);
    var w := Poly(Fold(INITIAL, s));
    var (q', p') := (Zeros(|p|) + q, Zeros(|q|) + p);
    Leading(|p|, q);
    Leading(|q|, p);
    Sum(q', p');
    Cancel(Dividend(s), r, w);
    SmallMultiple(Xors(q', p'));
    Apart(r, w);
  }

  // ---- Arithmetic ----

  lemma PlusAssociates(a: Polynomial, b: Polynomial, c: Polynomial)
    ensures Plus(Plus(a, b), c) == Plus(a, Plus(b, c))
  {}

  lemma Exchange(a: Polynomial, b: Polynomial, c: Polynomial, d: Polynomial)
    ensures Plus(Plus(a, b), Plus(c, d)) == Plus(Plus(a, c), Plus(b, d))
  {}

  lemma InTimes(a: Polynomial, n: nat, e: nat)
    ensures e in Times(a, n) <==> e >= n && e - n in a
  {
    if e >= n { assert e == (e - n) + n; }
  }

  lemma TimesPlus(a: Polynomial, b: Polynomial, n: nat)
    ensures Times(Plus(a, b), n) == Plus(Times(a, n), Times(b, n))
  {
    forall e: nat ensures e in Times(Plus(a, b), n) <==> e in Plus(Times(a, n), Times(b, n)) {
      InTimes(Plus(a, b), n, e);
      InTimes(a, n, e);
      InTimes(b, n, e);
    }
  }

  lemma TimesTimes(a: Polynomial, m: nat, n: nat)
    ensures Times(Times(a, m), n) == Times(a, m + n)
  {
    forall e: nat ensures e in Times(Times(a, m), n) <==> e in Times(a, m + n) {
      InTimes(Times(a, m), n, e);
      InTimes(a, m + n, e);
      if e >= n { InTimes(a, m, e - n); }
    }
  }

  lemma Cancel(d: Polynomial, r: Polynomial, w: Polynomial)
    ensures Plus(Plus(d, r), Plus(d, w)) == Plus(r, w)
    ensures r <= Below(32) && w <= Below(32) ==> Plus(r, w) <= Below(32)
  {}

  lemma Apart(r: Polynomial, w: Polynomial)
    ensures Plus(r, w) == {} ==> r == w
  {
    if Plus(r, w) == {} {
      forall e: nat ensures e in r <==> e in w {
        assert e !in Plus(r, w);
      }
    }
  }

  // ---- One bit ----

  // The masks, one by one.
  lemma Masks()
    ensures Mask(0) == 0x80000000 && Mask(1) == 0x40000000 && Mask(2) == 0x20000000 && Mask(3) == 0x10000000
    ensures Mask(4) == 0x08000000 && Mask(5) == 0x04000000 && Mask(6) == 0x02000000 && Mask(7) == 0x01000000
    ensures Mask(8) == 0x00800000 && Mask(9) == 0x00400000 && Mask(10) == 0x00200000 && Mask(11) == 0x00100000
    ensures Mask(12) == 0x00080000 && Mask(13) == 0x00040000 && Mask(14) == 0x00020000 && Mask(15) == 0x00010000
    ensures Mask(16) == 0x00008000 && Mask(17) == 0x00004000 && Mask(18) == 0x00002000 && Mask(19) == 0x00001000
    ensures Mask(20) == 0x00000800 && Mask(21) == 0x00000400 && Mask(22) == 0x00000200 && Mask(23) == 0x00000100
    ensures Mask(24) == 0x00000080 && Mask(25) == 0x00000040 && Mask(26) == 0x00000020 && Mask(27) == 0x00000010
    ensures Mask(28) == 0x00000008 && Mask(29) == 0x00000004 && Mask(30) == 0x00000002 && Mask(31) == 0x00000001
  {
    assert Mask(1) == 0x40000000;
    assert Mask(2) == 0x20000000;
    assert Mask(3) == 0x10000000;
    assert Mask(4) == 0x08000000;
    assert Mask(5) == 0x04000000;
    assert Mask(6) == 0x02000000;
    assert Mask(7) == 0x01000000;
    assert Mask(8) == 0x00800000;
    assert Mask(9) == 0x00400000;
    assert Mask(10) == 0x00200000;
    assert Mask(11) == 0x00100000;
    assert Mask(12) == 0x00080000;
    assert Mask(13) == 0x00040000;
    assert Mask(14) == 0x00020000;
    assert Mask(15) == 0x00010000;
    assert Mask(16) == 0x00008000;
    assert Mask(17) == 0x00004000;
    assert Mask(18) == 0x00002000;
    assert Mask(19) == 0x00001000;
    assert Mask(20) == 0x00000800;
    assert Mask(21) == 0x00000400;
    assert Mask(22) == 0x00000200;
    assert Mask(23) == 0x00000100;
    assert Mask(24) == 0x00000080;
    assert Mask(25) == 0x00000040;
    assert Mask(26) == 0x00000020;
    assert Mask(27) == 0x00000010;
    assert Mask(28) == 0x00000008;
    assert Mask(29) == 0x00000004;
    assert Mask(30) == 0x00000002;
  }

  lemma NotZero(i: nat)
    requires i < 32
    ensures Mask(i) != 0
  {
    hide Mask;
    Masks();
  }

  lemma Even(i: nat)
    requires i < 31
    ensures And(Mask(i), 1) == 0
  {
    hide Mask;
    Masks();
  }

  lemma TopOrNothing(w: bv32)
    ensures And(w, 0x8000_0000) == 0 || And(w, 0x8000_0000) == 0x8000_0000
    ensures And(Half(w), 0x8000_0000) == 0
  {}

  lemma OneDown(w: bv32, m: bv32)
    requires And(w << 1, m) == 0 || And(w << 1, m) == m
    ensures And(w, Half(m)) == 0 || And(w, Half(m)) == Half(m)
  {
    hide And, Half;
    HalfAnd(w, m);
    HalfNothing();
  }

  lemma HalfAnd(w: bv32, m: bv32)
    ensures Half(And(w << 1, m)) == And(w, Half(m))
  {}

  lemma HalfNothing()
    ensures Half(0) == 0
  {}

  // A mask has one bit.
  lemma {:induction false} OneBit(w: bv32, i: nat)
    requires i < 32
    ensures And(w, Mask(i)) == 0 || And(w, Mask(i)) == Mask(i)
    decreases i
  {
    hide And, Half;
    if i == 0 {
      TopOrNothing(w);
    } else {
      OneBit(w << 1, i - 1);
      OneDown(w, Mask(i - 1));
    }
  }

  lemma XorBit(a: bv32, b: bv32, m: bv32)
    requires m != 0 && (And(a, m) == 0 || And(a, m) == m) && (And(b, m) == 0 || And(b, m) == m)
    ensures And(Xor(a, b), m) != 0 <==> (And(a, m) != 0) != (And(b, m) != 0)
  {
    hide And, Xor;
    Distributes(a, b, m);
    XorSelf(m);
  }

  lemma XorSelf(m: bv32)
    ensures Xor(m, m) == 0 == Xor(0, 0) && Xor(m, 0) == m == Xor(0, m)
  {}

  lemma Distributes(a: bv32, b: bv32, m: bv32)
    ensures And(Xor(a, b), m) == Xor(And(a, m), And(b, m))
  {}

  lemma ShiftBit(w: bv32, m: bv32)
    requires And(m, 1) == 0
    ensures And(Half(w), Half(m)) != 0 <==> And(w, m) != 0
  {}

  lemma HasXor(a: bv32, b: bv32, i: nat)
    requires i < 32
    ensures Has(Xor(a, b), i) <==> Has(a, i) != Has(b, i)
  {
    hide Mask, Xor, And;
    NotZero(i);
    OneBit(a, i);
    OneBit(b, i);
    XorBit(a, b, Mask(i));
  }

  lemma HasShifted(w: bv32, i: nat)
    requires i < 31
    ensures Has(Half(w), i + 1) <==> Has(w, i)
  {
    hide And, Half;
    Even(i);
    ShiftBit(w, Mask(i));
  }

  lemma HasNoTop(w: bv32)
    ensures !Has(Half(w), 0)
  {
    TopOrNothing(w);
  }

  // The constant of the source is the generator without its highest term.
  lemma PolynomialIsGenerator(i: nat)
    requires i < 32
    ensures Has(POLYNOMIAL, i) <==> i in GENERATOR
    ensures !Has(0, i)
  {
    hide Mask;
    Masks();
  }

  lemma HasStep(w: bv32, i: nat)
    requires i < 32
    ensures Has(Step(w), i) <==> (i > 0 && Has(w, i - 1)) != (Has(w, 31) && i in GENERATOR)
  {
    StepIsXor(w);
    hide Mask, Has, Xor, Step, Tap, Half;
    TapsOnLast(w);
    HasXor(Half(w), Tap(w), i);
    if i > 0 { HasShifted(w, i - 1); } else { HasNoTop(w); }
    PolynomialIsGenerator(i);
  }

  lemma StepIsXor(w: bv32)
    ensures Step(w) == Xor(Half(w), Tap(w))
  {}

  lemma GeneratorBounded()
    ensures 32 in GENERATOR && forall e <- GENERATOR :: e <= 32
  {}

  lemma InPlus(a: Polynomial, b: Polynomial, e: nat)
    ensures e in Plus(a, b) <==> (e in a) != (e in b)
  {}

  lemma InTerm(t: bool, e: nat)
    ensures e in Term(t) <==> t && e in GENERATOR
    ensures e > 32 ==> e !in Term(t)
  {}

  // The tap adds the generator: one bit step multiplies by x and reduces.
  lemma StepPoly(w: bv32)
    ensures Poly(Step(w)) == Plus(Times(Poly(w), 1), Term(Has(w, 31)))
  {
    hide Mask, Has, Step, Plus, Times, Term;
    forall i: nat ensures i in Poly(Step(w)) <==> i in Plus(Times(Poly(w), 1), Term(Has(w, 31))) {
      InPlus(Times(Poly(w), 1), Term(Has(w, 31)), i);
      InTimes(Poly(w), 1, i);
      InTerm(Has(w, 31), i);
      if i < 32 { HasStep(w, i); }
      GeneratorBounded();
    }
  }

  lemma TapsOnLast(w: bv32)
    ensures Has(w, 31) == (Tap(w) == POLYNOMIAL) && (!Has(w, 31) ==> Tap(w) == 0)
  {
    hide Mask;
    Masks();
    LowestBit(w);
  }

  lemma LowestBit(w: bv32)
    ensures w & 1 == 1 <==> And(w, 1) != 0
  {}

  lemma StepDivides(d: Polynomial, w: bv32, q: seq<bool>)
    requires Plus(d, Poly(w)) == Multiple(q)
    ensures Plus(Times(d, 1), Poly(Step(w))) == Multiple(q + [Has(w, 31)])
  {
    hide Plus, Times, Poly, Has, Term, Step;
    var g := Term(Has(w, 31));
    assert (q + [Has(w, 31)])[..|q|] == q;
    StepPoly(w);
    TimesPlus(d, Poly(w), 1);
    PlusAssociates(Times(d, 1), Times(Poly(w), 1), g);
  }

  lemma {:induction false} StepsDivide(d: Polynomial, w: bv32, q: seq<bool>, n: nat) returns (q': seq<bool>)
    requires Plus(d, Poly(w)) == Multiple(q)
    ensures Plus(Times(d, n), Poly(Steps(n, w))) == Multiple(q')
  {
    hide Plus, Times, Poly, Has, Multiple, Step;
    if n == 0 {
      TimesNothing(d);
      q' := q;
    } else {
      q' := StepsDivide(d, w, q, n - 1);
      StepDivides(Times(d, n - 1), Steps(n - 1, w), q');
      TimesTimes(d, n - 1, 1);
      q' := q' + [Has(Steps(n - 1, w), 31)];
    }
  }

  lemma TimesNothing(d: Polynomial)
    ensures Times(d, 0) == d
  {
    forall e: nat ensures e in Times(d, 0) <==> e in d { InTimes(d, 0, e); }
  }

  // ---- One octet, and all of them ----

  lemma OctetPoly(b: octet)
    ensures Poly(Wide(b)) == Times(Bits(b), 24)
  {
    hide Has;
    forall i: nat ensures i in Poly(Wide(b)) <==> i in Times(Bits(b), 24) {
      InTimes(Bits(b), 24, i);
      if i < 24 { HighBitsClear(b, i); }
    }
  }

  lemma HighBitsClear(b: octet, i: nat)
    requires i < 24
    ensures !Has(Wide(b), i)
  {
    hide Mask, And;
    LowMask(i);
    SmallOctet(b);
    Disjoint(Wide(b), Mask(i));
  }

  lemma LowMask(i: nat)
    requires i < 24
    ensures And(Mask(i), 0xff) == 0
  {
    hide Mask;
    Masks();
  }

  lemma Disjoint(x: bv32, m: bv32)
    requires x <= 0xff && And(m, 0xff) == 0
    ensures And(x, m) == 0
  {}

  lemma XorPoly(a: bv32, b: bv32)
    ensures Poly(Xor(a, b)) == Plus(Poly(a), Poly(b))
  {
    hide Has, Xor;
    forall i: nat ensures i in Poly(Xor(a, b)) <==> i in Plus(Poly(a), Poly(b)) {
      if i < 32 { HasXor(a, b, i); }
    }
  }

  // The dividend as it builds up, octet by octet.
  function Horner(s: seq<octet>): Polynomial {
    if s == [] then Below(32) else Times(Plus(Horner(s[..|s| - 1]), Times(Bits(s[|s| - 1]), 24)), 8)
  }

  lemma InitialPoly()
    ensures Poly(INITIAL) == Below(32)
  {
    InBelow(32);
    forall i: nat | i < 32 ensures Has(INITIAL, i) {
      NotZero(i);
      AllOnes(Mask(i));
    }
  }

  lemma AllOnes(m: bv32)
    ensures And(INITIAL, m) == m
  {}

  lemma {:induction false} Divide(s: seq<octet>) returns (q: seq<bool>)
    ensures Plus(Horner(s), Poly(Fold(INITIAL, s))) == Multiple(q)
  {
    hide Poly, Times, Bits, Steps;
    if s == [] {
      InitialPoly();
      q := [];
    } else {
      hide Plus, Multiple;
      var (front, b) := (s[..|s| - 1], s[|s| - 1]);
      var w := Fold(INITIAL, front);
      q := Divide(front);
      XorPoly(w, Wide(b));
      OctetPoly(b);
      var x := Times(Bits(b), 24);
      Twice(Horner(front), Poly(w), x);
      q := StepsDivide(Plus(Horner(front), x), Xor(w, Wide(b)), q, 8);
    }
  }

  // The same addend on both sides.
  lemma Twice(a: Polynomial, b: Polynomial, x: Polynomial)
    ensures Plus(Plus(a, x), Plus(b, x)) == Plus(a, b)
  {}

  lemma {:induction false} DividendHorner(s: seq<octet>)
    ensures Horner(s) == Dividend(s)
  {
    hide Plus, Times, Bits, Below;
    if s == [] {
      TimesNothing(Below(32));
      NothingTimes(32);
      PlusNothing(Below(32));
    } else {
      var (front, b) := (s[..|s| - 1], s[|s| - 1]);
      DividendHorner(front);
      Shift(Message(front), Below(32), Bits(b), 8 * |front|);
    }
  }

  // One octet more: both ways of building the dividend move everything up by eight.
  lemma Shift(m: Polynomial, o: Polynomial, b: Polynomial, n: nat)
    ensures Times(Plus(Plus(Times(m, 32), Times(o, n)), Times(b, 24)), 8) ==
            Plus(Times(Plus(Times(m, 8), b), 32), Times(o, n + 8))
  {
    hide Plus, Times;
    TimesPlus(Plus(Times(m, 32), Times(o, n)), Times(b, 24), 8);
    TimesPlus(Times(m, 32), Times(o, n), 8);
    TimesTimes(m, 32, 8);
    TimesTimes(o, n, 8);
    TimesTimes(b, 24, 8);
    TimesPlus(Times(m, 8), b, 32);
    TimesTimes(m, 8, 32);
    Swapped(Times(m, 40), Times(o, n + 8), Times(b, 32));
  }

  lemma Swapped(a: Polynomial, b: Polynomial, c: Polynomial)
    ensures Plus(Plus(a, b), c) == Plus(Plus(a, c), b)
  {}

  lemma NothingTimes(n: nat)
    ensures Times({}, n) == {}
  {}

  lemma PlusNothing(a: Polynomial)
    ensures Plus({}, a) == a == Plus(a, {})
  {}

  // ---- A multiple of the generator that is not zero has a term it cannot lose ----

  function Zeros(n: nat): (q: seq<bool>)
    ensures |q| == n
  {
    seq(n, _ => false)
  }

  function Xors(p: seq<bool>, q: seq<bool>): (r: seq<bool>)
    requires |p| == |q|
    ensures |r| == |p|
  {
    seq(|p|, i requires 0 <= i < |p| => p[i] != q[i])
  }

  lemma {:induction false} Leading(n: nat, q: seq<bool>)
    ensures Multiple(Zeros(n) + q) == Multiple(q)
    decreases n, |q|
  {
    if q != [] {
      assert (Zeros(n) + q)[..n + |q| - 1] == Zeros(n) + q[..|q| - 1];
      Leading(n, q[..|q| - 1]);
    } else if n > 0 {
      assert (Zeros(n) + q)[..n - 1] == Zeros(n - 1) + [];
      Leading(n - 1, []);
      NothingTimes(1);
    } else {
      assert Zeros(0) + q == q;
    }
  }

  lemma {:induction false} Sum(p: seq<bool>, q: seq<bool>)
    requires |p| == |q|
    ensures Multiple(Xors(p, q)) == Plus(Multiple(p), Multiple(q))
  {
    if p != [] {
      hide Plus, Times;
      var n := |p| - 1;
      assert Xors(p, q)[..n] == Xors(p[..n], q[..n]);
      Sum(p[..n], q[..n]);
      TimesPlus(Multiple(p[..n]), Multiple(q[..n]), 1);
      Exchange(Times(Multiple(p[..n]), 1), Times(Multiple(q[..n]), 1), Term(p[n]), Term(q[n]));
      TermXor(p[n], q[n]);
    }
  }

  lemma TermXor(s: bool, t: bool)
    ensures Plus(Term(s), Term(t)) == Term(s != t)
  {}

  lemma {:induction false} Top(q: seq<bool>)
    requires q != [] && q[0]
    ensures |q| + 31 in Multiple(q) && forall e <- Multiple(q) :: e <= |q| + 31
  {
    hide Plus, Times, Multiple, Term;
    var n := |q| - 1;
    MultipleSnoc(q);
    GeneratorBounded();
    if n > 0 {
      assert q[..n][0];
      Top(q[..n]);
    }
    forall e: nat ensures e in Multiple(q) ==> e <= n + 32 {
      InPlus(Times(Multiple(q[..n]), 1), Term(q[n]), e);
      InTimes(Multiple(q[..n]), 1, e);
      InTerm(q[n], e);
    }
    InPlus(Times(Multiple(q[..n]), 1), Term(q[n]), n + 32);
    InTimes(Multiple(q[..n]), 1, n + 32);
    InTerm(q[n], n + 32);
  }

  lemma MultipleSnoc(q: seq<bool>)
    requires q != []
    ensures Multiple(q) == Plus(Times(Multiple(q[..|q| - 1]), 1), Term(q[|q| - 1]))
    ensures |q| == 1 ==> Multiple(q[..0]) == {}
  {}

  lemma {:induction false} SmallMultiple(q: seq<bool>)
    requires Multiple(q) <= Below(32)
    ensures Multiple(q) == {}
  {
    if q != [] {
      if q[0] {
        Top(q);
        InBelow(32);
      } else {
        assert q == Zeros(1) + q[1..];
        Leading(1, q[1..]);
        SmallMultiple(q[1..]);
      }
    }
  }

  // ---- The check value ----

  const DIGITS: seq<byte> := [0x31, 0x32, 0x33, 0x34, 0x35, 0x36, 0x37, 0x38, 0x39]

  // The bytes of "123456789" have the checksum that is published for them.
  lemma CheckValue()
    ensures Checksum(DIGITS) == 0xcbf43926
  {
    hide Fold, NumberOf, Xor, Octets, Checksum;
    RegisterValue();
    Concluded(DIGITS, 0x340b_c6d9);
    WordValue();
  }

  lemma Concluded(s: seq<byte>, r: bv32)
    requires Fold(INITIAL, Octets(s)) == r
    ensures Checksum(s) == NumberOf(Xor(r, INITIAL))
  {}

  // The registers before and after each of them.
  const REGISTERS: seq<bv32> :=
    [0xffffffff, 0x7c231048, 0xb0acbb32, 0x77b79c2d, 0x641c1f5c,
     0x340ac5e3, 0xf68d2c9e, 0xaffc9660, 0x651f2550, 0x340bc6d9]

  lemma RegisterValue()
    ensures Fold(INITIAL, Octets(DIGITS)) == 0x340b_c6d9
  {
    hide Fold, Octets, Feed;
    Reached(9);
    assert DIGITS[..9] == DIGITS;
  }

  lemma {:induction false} Reached(k: nat)
    requires k <= 9
    ensures Fold(INITIAL, Octets(DIGITS[..k])) == REGISTERS[k]
  {
    hide Fold, Octets, Feed;
    if k == 0 {
      Empty();
    } else {
      Reached(k - 1);
      assert DIGITS[..k] == DIGITS[..k - 1] + [DIGITS[k - 1]];
      Append(DIGITS[..k - 1], DIGITS[k - 1]);
      Next(k - 1);
    }
  }

  lemma Next(k: nat)
    requires k < 9
    ensures Feed(REGISTERS[k], DIGITS[k] as bv8) == REGISTERS[k + 1]
  {
    hide Feed;
    match k
    case 0 => Digit1();
    case 1 => Digit2();
    case 2 => Digit3();
    case 3 => Digit4();
    case 4 => Digit5();
    case 5 => Digit6();
    case 6 => Digit7();
    case 7 => Digit8();
    case _ => Digit9();
  }

  lemma Digit1()
    ensures Feed(0xffffffff, 0x31) == 0x7c231048
  {
    Bitwise(0xffffffff, 0x31,
            [0xffffffce, 0x7fffffe7, 0xd2477cd3, 0x849b3d49, 0xaff51d84,
             0x57fa8ec2, 0x2bfd4761, 0xf8462090, 0x7c231048]);
  }

  lemma Digit2()
    ensures Feed(0x7c231048, 0x32) == 0xb0acbb32
  {
    Bitwise(0x7c231048, 0x32,
            [0x7c23107a, 0x3e11883d, 0xf2b0473e, 0x7958239f, 0xd11492ef,
             0x8532ca57, 0xaf21e60b, 0xba287025, 0xb0acbb32]);
  }

  lemma Digit3()
    ensures Feed(0xb0acbb32, 0x33) == 0x77b79c2d
  {
    Bitwise(0xb0acbb32, 0x33,
            [0xb0acbb01, 0xb5eedea0, 0x5af76f50, 0x2d7bb7a8, 0x16bddbd4,
             0x0b5eedea, 0x05af76f5, 0xef6f385a, 0x77b79c2d]);
  }

  lemma Digit4()
    ensures Feed(0x77b79c2d, 0x34) == 0x641c1f5c
  {
    Bitwise(0x77b79c2d, 0x34,
            [0x77b79c19, 0xd6634d2c, 0x6b31a696, 0x3598d34b, 0xf774ea85,
             0x9602f662, 0x4b017b31, 0xc8383eb8, 0x641c1f5c]);
  }

  lemma Digit5()
    ensures Feed(0x641c1f5c, 0x35) == 0x340ac5e3
  {
    Bitwise(0x641c1f5c, 0x35,
            [0x641c1f69, 0xdfb68c94, 0x6fdb464a, 0x37eda325, 0xf64e52b2,
             0x7b272959, 0xd02b178c, 0x68158bc6, 0x340ac5e3]);
  }

  lemma Digit6()
    ensures Feed(0x340ac5e3, 0x36) == 0xf68d2c9e
  {
    Bitwise(0x340ac5e3, 0x36,
            [0x340ac5d5, 0xf7bde1ca, 0x7bdef0e5, 0xd057fb52, 0x682bfda9,
             0xd9ad7df4, 0x6cd6befa, 0x366b5f7d, 0xf68d2c9e]);
  }

  lemma Digit7()
    ensures Feed(0xf68d2c9e, 0x37) == 0xaffc9660
  {
    Bitwise(0xf68d2c9e, 0x37,
            [0xf68d2ca9, 0x96fe1574, 0x4b7f0aba, 0x25bf855d, 0xff67418e,
             0x7fb3a0c7, 0xd2615343, 0x84882a81, 0xaffc9660]);
  }

  lemma Digit8()
    ensures Feed(0xaffc9660, 0x38) == 0x651f2550
  {
    Bitwise(0xaffc9660, 0x38,
            [0xaffc9658, 0x57fe4b2c, 0x2bff2596, 0x15ff92cb, 0xe7474a45,
             0x9e1b2602, 0x4f0d9301, 0xca3e4aa0, 0x651f2550]);
  }

  lemma Digit9()
    ensures Feed(0x651f2550, 0x39) == 0x340bc6d9
  {
    Bitwise(0x651f2550, 0x39,
            [0x651f2569, 0xdf371194, 0x6f9b88ca, 0x37cdc465, 0xf65e6112,
             0x7b2f3089, 0xd02f1b64, 0x68178db2, 0x340bc6d9]);
  }

  lemma Empty()
    ensures Fold(INITIAL, Octets(DIGITS[..0])) == INITIAL
  {}

  lemma WordValue()
    ensures NumberOf(Xor(0x340b_c6d9, INITIAL)) == 0xcbf43926
  {
    assert Xor(0x340b_c6d9, INITIAL) == 0xcbf4_3926;
    assert Lanes(0xcbf4_3926) == [0x26, 0x39, 0xf4, 0xcb];
    assert BytesOf([0x26, 0x39, 0xf4, 0xcb]) == [0x26, 0x39, 0xf4, 0xcb];
    LittleEndian([0x26, 0x39, 0xf4, 0xcb]);
  }

  lemma Append(s: seq<byte>, b: byte)
    ensures Fold(INITIAL, Octets(s + [b])) == Feed(Fold(INITIAL, Octets(s)), b as bv8)
  {
    assert Octets(s + [b])[..|s|] == Octets(s);
  }

  // The registers after each of an octet's bits.
  lemma Bitwise(c: bv32, b: octet, xs: seq<bv32>)
    requires |xs| == 9 && xs[0] == Xor(c, Wide(b))
    requires forall i :: 0 <= i < 8 ==> xs[i + 1] == Step(xs[i])
    ensures Feed(c, b) == xs[8]
  {
    Reach(xs, 8);
  }

  lemma {:induction false} Reach(xs: seq<bv32>, n: nat)
    requires n < |xs| && forall i :: 0 <= i < |xs| - 1 ==> xs[i + 1] == Step(xs[i])
    ensures Steps(n, xs[0]) == xs[n]
  {
    if n > 0 { Reach(xs, n - 1); }
  }
}
