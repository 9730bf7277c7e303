// The text decoder of guardian.c against the UTF-8 of RFC 3629.
module Utf8 {
  import opened Options
  import opened Words

  const MAX_CHARACTERS: nat := 512

  // A Unicode scalar value that is not a C0 or C1 control character and not DEL.
  predicate Printable(cp: int) {
    32 <= cp <= 0x10ffff && !(0xd800 <= cp <= 0xdfff) && !(127 <= cp < 160)
  }

  // Section 3 of RFC 3629: the octets of one character.
  function Encode(cp: nat): (r: seq<byte>)
    requires cp <= 0x10ffff
    ensures 1 <= |r| <= 4
  {
    if cp < 0x80 then [cp]
    else if cp < 0x800 then [0xc0 + cp / 0x40, 0x80 + cp % 0x40]
    else if cp < 0x10000 then [0xe0 + cp / 0x1000, 0x80 + cp / 0x40 % 0x40, 0x80 + cp % 0x40]
    else [0xf0 + cp / 0x40000, 0x80 + cp / 0x1000 % 0x40, 0x80 + cp / 0x40 % 0x40, 0x80 + cp % 0x40]
  }

  // Every printable character, by ranges.
  lemma PrintableMeans(cp: int)
    ensures Printable(cp) <==> 0x20 <= cp <= 0x7e || 0xa0 <= cp <= 0xd7ff || 0xe000 <= cp <= 0x10ffff
  {}

  // The low bits of an octet that continues.
  ghost function Six(b: byte): int { b as int - 0x80 }

  // The table of section 3 of RFC 3629: each octet's high bits say its place, and the low ones,
  // six for each octet that continues, make up the character.
  lemma Table(cp: nat)
    requires cp <= 0x10ffff
    ensures var r := Encode(cp);
      && (cp <= 0x7f ==> |r| == 1 && r[0] == cp)
      && (0x80 <= cp <= 0x7ff ==>
            |r| == 2 && 0xc0 <= r[0] < 0xe0 && cp == (r[0] as int - 0xc0) * 0x40 + Six(r[1]))
      && (0x800 <= cp <= 0xffff ==>
            |r| == 3 && 0xe0 <= r[0] < 0xf0 && cp == (r[0] as int - 0xe0) * 0x1000 + Six(r[1]) * 0x40 + Six(r[2]))
      && (0x1_0000 <= cp ==>
            && |r| == 4 && 0xf0 <= r[0] < 0xf8
            && cp == (r[0] as int - 0xf0) * 0x4_0000 + Six(r[1]) * 0x1000 + Six(r[2]) * 0x40 + Six(r[3]))
      && (forall i :: 1 <= i < |r| ==> 0x80 <= r[i] < 0xc0)
  {
    Unshift(cp);
    Unshift(cp / 64);
    Unshift(cp / 64 / 64);
  }

  predicate AllPrintable(cps: seq<nat>) { forall i :: 0 <= i < |cps| ==> Printable(cps[i]) }

  function EncodeAll(cps: seq<nat>): (r: seq<byte>)
    requires AllPrintable(cps)
    ensures |r| >= |cps|
  {
    if cps == [] then [] else Encode(cps[0]) + EncodeAll(cps[1..])
  }

  // How many continuation octets a lead octet announces, and the least character that needs them.
  datatype Lead = Lead(value: nat, extra: nat, min: nat)

  function LeadOf(first: byte): (r: Option<Lead>)
    ensures r.Some? ==> r.value.extra <= 3
  {
    if first < 128 then Some(Lead(first, 0, 0))
    else if 0xc2 <= first <= 0xdf then Some(Lead(first % 32, 1, 128))
    else if 0xe0 <= first <= 0xef then Some(Lead(first % 16, 2, 2048))
    else if 0xf0 <= first <= 0xf4 then Some(Lead(first % 8, 3, 65536))
    else None
  }

  // The value built from n continuation octets after a lead value.
  function Continued(value: nat, octets: seq<byte>): (r: nat) {
    if octets == [] then value else Continued(value, octets[..|octets| - 1]) * 64 + octets[|octets| - 1] % 64
  }

  predicate Continuation(b: byte) { 0x80 <= b < 0xc0 }

  lemma ContinuedTwo(value: nat, a: byte, b: byte)
    ensures Continued(value, [a]) == value * 64 + a % 64
    ensures Continued(value, [a, b]) == (value * 64 + a % 64) * 64 + b % 64
  {
    assert [a][..0] == [] && [a, b][..1] == [a];
  }

  lemma ContinuedThree(value: nat, a: byte, b: byte, c: byte)
    ensures Continued(value, [a, b, c]) == ((value * 64 + a % 64) * 64 + b % 64) * 64 + c % 64
  {
    ContinuedTwo(value, a, b);
    assert [a, b, c][..2] == [a, b];
  }

  // One more octet of six bits, and how to take it off again.
  lemma Shift(high: nat, b: byte)
    requires Continuation(b)
    ensures b % 64 == b - 0x80 && (high * 64 + b % 64) / 64 == high && (high * 64 + b % 64) % 64 == b - 0x80
  {}

  lemma Unshift(c: nat)
    ensures (0x80 + c % 64) % 64 == c % 64 && c / 64 * 64 + c % 64 == c
    ensures c / 0x1000 == c / 64 / 64 && c / 0x40000 == c / 64 / 64 / 64
  {}

  // The octets of a character announce their own number and carry its value.
  lemma LeadOfEncode(c: nat)
    requires Printable(c)
    ensures Announces(Encode(c), c)
  {
    var e := Encode(c);
    Unshift(c);
    if |e| == 2 {
      assert e[1..] == [e[1]];
      ContinuedTwo(c / 0x40, e[1], 0);
    } else if |e| == 3 {
      LeadOfThree(c);
    } else if |e| == 4 {
      LeadOfFour(c);
    }
  }

  lemma LeadOfThree(c: nat)
    requires 0x800 <= c < 0x10000
    ensures Announces(Encode(c), c)
  {
    var e := Encode(c);
    Unshift(c);
    Unshift(c / 64);
    assert e[1..] == [e[1], e[2]];
    ContinuedTwo(c / 0x1000, e[1], e[2]);
  }

  lemma LeadOfFour(c: nat)
    requires 0x10000 <= c <= 0x10ffff
    ensures Announces(Encode(c), c)
  {
    var e := Encode(c);
    Unshift(c);
    Unshift(c / 64);
    Unshift(c / 64 / 64);
    assert e[1..] == [e[1], e[2], e[3]];
    ContinuedThree(c / 0x40000, e[1], e[2], e[3]);
  }

  // These octets have the announced number and form, and the value c in the announced range.
  predicate Announces(octets: seq<byte>, c: nat) {
    && |octets| >= 1 && LeadOf(octets[0]).Some?
    && var lead := LeadOf(octets[0]).value;
      && |octets| == 1 + lead.extra && lead.min <= c
      && Continued(lead.value, octets[1..]) == c
      && forall k :: 1 <= k < |octets| ==> Continuation(octets[k])
  }

  // Conversely, octets of that form are the value's own.
  lemma AnnouncedIsEncoded(octets: seq<byte>, c: nat)
    requires Announces(octets, c) && c <= 0x10ffff
    ensures Encode(c) == octets
  {
    var lead := LeadOf(octets[0]).value;
    if lead.extra == 0 {
      assert octets == [octets[0]];
    } else if lead.extra == 1 {
      assert octets[1..] == [octets[1]];
      ContinuedTwo(lead.value, octets[1], 0);
      Shift(lead.value, octets[1]);
    } else if lead.extra == 2 {
      TwoContinued(octets, c);
    } else {
      ThreeContinued(octets, c);
    }
  }

  lemma TwoContinued(octets: seq<byte>, c: nat)
    requires Announces(octets, c) && |octets| == 3 && c <= 0x10ffff
    ensures Encode(c) == octets
  {
    var l := LeadOf(octets[0]).value.value;
    assert octets[1..] == [octets[1], octets[2]];
    ContinuedTwo(l, octets[1], octets[2]);
    var h := l * 64 + octets[1] % 64;
    Shift(l, octets[1]);
    Shift(h, octets[2]);
    Unshift(c);
    assert c / 64 == h && h / 64 == l;
  }

  lemma ThreeContinued(octets: seq<byte>, c: nat)
    requires Announces(octets, c) && |octets| == 4 && c <= 0x10ffff
    ensures Encode(c) == octets
  {
    var l := LeadOf(octets[0]).value.value;
    assert octets[1..] == [octets[1], octets[2], octets[3]];
    ContinuedThree(l, octets[1], octets[2], octets[3]);
    var h := l * 64 + octets[1] % 64;
    var m := h * 64 + octets[2] % 64;
    Shift(l, octets[1]);
    Shift(h, octets[2]);
    Shift(m, octets[3]);
    Unshift(c);
    assert c / 64 == m && m / 64 == h && h / 64 == l;
  }

  // What the text starts with, if a character's octets come first.
  lemma FirstOf(c: nat, s: seq<byte>)
    requires Printable(c) && Encode(c) <= s
    ensures |s| >= 1 && LeadOf(s[0]).Some? && 1 + LeadOf(s[0]).value.extra <= |s|
    ensures Announces(s[..1 + LeadOf(s[0]).value.extra], c)
    ensures forall k :: 1 <= k <= LeadOf(s[0]).value.extra ==> Continuation(s[k])
  {
    LeadOfEncode(c);
    assert s[..|Encode(c)|] == Encode(c);
  }

  // One round of the loop in text_plan: the next character, or a refusal.
  method DecodeOne(bytes: seq<byte>, start: nat) returns (cp: Option<nat>, pos: nat)
    requires start < |bytes|
    ensures cp.Some? ==> Printable(cp.value) && start < pos <= |bytes| && bytes[start..pos] == Encode(cp.value)
    ensures cp.None? ==> forall c: nat | Printable(c) :: !(Encode(c) <= bytes[start..])
  {
    ghost var s := bytes[start..];
    var first := bytes[start];
    pos := start + 1;
    cp := None;
    var lead := LeadOf(first);
    if lead.None? || pos + lead.value.extra > |bytes| {
      forall c: nat | Printable(c) ensures !(Encode(c) <= s) {
        if Encode(c) <= s { FirstOf(c, s); }
      }
      return;
    }
    var value := lead.value.value;
    var j := 0;
    while j < lead.value.extra
      invariant 0 <= j <= lead.value.extra && pos == start + 1 + j
      invariant value == Continued(lead.value.value, s[1..1 + j])
      invariant forall k :: 1 <= k < 1 + j ==> Continuation(s[k])
    {
      var b := bytes[pos];
      if !Continuation(b) {
        assert s[1 + j] == b;
        forall c: nat | Printable(c) ensures !(Encode(c) <= s) {
          if Encode(c) <= s { FirstOf(c, s); }
        }
        return;
      }
      assert s[1..2 + j] == s[1..1 + j] + [b];
      value := value * 64 + b % 64;
      pos := pos + 1;
      j := j + 1;
    }
    assert s[..1 + j][1..] == s[1..1 + j] && s[..1 + j] == bytes[start..pos];
    if value < lead.value.min || !Printable(value) {
      forall c: nat | Printable(c) ensures !(Encode(c) <= s) {
        if Encode(c) <= s { FirstOf(c, s); }
      }
      return;
    }
    AnnouncedIsEncoded(s[..1 + j], value);
    cp := Some(value);
  }

  // No character's octets begin another's.
  lemma PrefixFree(c: nat, d: nat)
    requires Printable(c) && Printable(d) && Encode(c) <= Encode(d)
    ensures c == d
  {
    LeadOfEncode(c);
    LeadOfEncode(d);
    assert Encode(c) == Encode(d);
  }

  lemma {:induction false} EncodeSnoc(cps: seq<nat>, c: nat)
    requires AllPrintable(cps) && Printable(c)
    ensures AllPrintable(cps + [c]) && EncodeAll(cps + [c]) == EncodeAll(cps) + Encode(c)
    decreases |cps|
  {
    if cps == [] {
      assert [] + [c] == [c] && [c][1..] == [];
      assert EncodeAll([c]) == Encode(c) + EncodeAll([]);
    } else {
      EncodeSnoc(cps[1..], c);
      assert (cps + [c])[1..] == cps[1..] + [c];
      assert Encode(cps[0]) + (EncodeAll(cps[1..]) + Encode(c)) == (Encode(cps[0]) + EncodeAll(cps[1..])) + Encode(c);
    }
  }

  lemma SameFirst(c: nat, s: seq<byte>, d: nat, t: seq<byte>)
    requires Printable(c) && Printable(d) && Encode(c) + s == Encode(d) + t
    ensures c == d && s == t
  {
    var all := Encode(c) + s;
    assert Encode(c) == all[..|Encode(c)|] && Encode(d) == all[..|Encode(d)|];
    if |Encode(c)| <= |Encode(d)| { PrefixFree(c, d); } else { PrefixFree(d, c); }
    assert s == all[|Encode(c)|..] && t == all[|Encode(d)|..];
  }

  // A text whose octets begin with those of done begins with done, and its rest is the rest.
  lemma {:induction false} Cancel(done: seq<nat>, s: seq<byte>, cps: seq<nat>)
    requires AllPrintable(done) && AllPrintable(cps) && EncodeAll(cps) == EncodeAll(done) + s
    ensures done <= cps && AllPrintable(cps[|done|..]) && EncodeAll(cps[|done|..]) == s
    decreases |done|
  {
    hide Encode;
    if done == [] {
      assert EncodeAll(done) + s == s && cps[0..] == cps;
    } else {
      assert EncodeAll(done) + s == Encode(done[0]) + (EncodeAll(done[1..]) + s);
      assert cps != [];
      SameFirst(done[0], EncodeAll(done[1..]) + s, cps[0], EncodeAll(cps[1..]));
      Cancel(done[1..], s, cps[1..]);
      assert cps[1..][|done| - 1..] == cps[|done|..];
    }
  }

  // Different texts have different octets: what the decoder yields is the only reading.
  lemma EncodeAllInjective(a: seq<nat>, b: seq<nat>)
    requires AllPrintable(a) && AllPrintable(b) && EncodeAll(a) == EncodeAll(b)
    ensures a == b
  {
    assert EncodeAll(b) == EncodeAll(a) + [];
    Cancel(a, [], b);
  }

  // Octets that begin no character end every reading of the text.
  lemma Unreadable(done: seq<nat>, s: seq<byte>, cps: seq<nat>)
    requires AllPrintable(done) && AllPrintable(cps) && s != []
    requires forall c: nat | Printable(c) :: !(Encode(c) <= s)
    ensures EncodeAll(cps) != EncodeAll(done) + s
  {
    if EncodeAll(cps) == EncodeAll(done) + s {
      Cancel(done, s, cps);
      FirstEncoded(cps[|done|..]);
    }
  }

  lemma FirstEncoded(cps: seq<nat>)
    requires AllPrintable(cps) && EncodeAll(cps) != []
    ensures cps != [] && Printable(cps[0]) && Encode(cps[0]) <= EncodeAll(cps)
  {
    assert cps != [];
  }
}
