// The snapshot file of the recovery journal: encode() and decode() of RecoveryJournal.
module Codec {
  import opened Words
  import opened Options
  import opened Lists
  import Crc

  const MAX_CODE: uint32 := 0x2ff
  const MODIFIER_FIELDS: uint32 := 4
  const MAX_ENTRIES: nat := 2 * (MAX_CODE + 1) + 4
  const HEADER_SIZE: nat := 256
  const MAX_BYTES: nat := HEADER_SIZE + MAX_ENTRIES * 8 + 4
  const MAX_TICKS: nat := 32
  const TWO63: nat := 0x8000_0000_0000_0000

  const KEY: byte := 0x6b
  const BUTTON: byte := 0x62
  const MODIFIER: byte := 0x6d

  const MAGIC: seq<byte> := [0x4f, 0x44, 0x53, 0x4a, 0x4e, 0x4c, 0x30, 0x32]

  // ---- What a snapshot says ----

  datatype Held = Held(keys: set<uint32>, buttons: set<uint32>, modifiers: set<uint32>)
  {
    function Of(kind: byte): set<uint32> {
      if kind == KEY then keys else if kind == BUTTON then buttons
      else if kind == MODIFIER then modifiers else {}
    }

    function With(kind: byte, code: uint32): Held {
      if kind == KEY then this.(keys := keys + {code})
      else if kind == BUTTON then this.(buttons := buttons + {code})
      else if kind == MODIFIER then this.(modifiers := modifiers + {code}) else this
    }

    function Without(kind: byte, code: uint32): Held {
      if kind == KEY then this.(keys := keys - {code})
      else if kind == BUTTON then this.(buttons := buttons - {code})
      else if kind == MODIFIER then this.(modifiers := modifiers - {code}) else this
    }

    predicate Empty() { keys == {} && buttons == {} && modifiers == {} }

    predicate Valid() {
      && (forall c <- keys :: c <= MAX_CODE)
      && (forall c <- buttons :: c <= MAX_CODE)
      && (forall c <- modifiers :: c < MODIFIER_FIELDS)
    }

    function Count(): nat { |keys| + |buttons| + |modifiers| }
  }

  predicate ValidKind(kind: byte) { kind == KEY || kind == BUTTON || kind == MODIFIER }

  predicate ValidCode(kind: byte, code: uint32) {
    if kind == MODIFIER then code < MODIFIER_FIELDS else (kind == KEY || kind == BUTTON) && code <= MAX_CODE
  }

  datatype Snapshot = Snapshot(held: Held, poisoned: bool, pid: int, ticks: seq<byte>)
  {
    predicate Valid() {
      && held.Valid()
      && ValidSource(pid, ticks)
    }
  }

  predicate Digit(b: byte) { 0x30 <= b <= 0x39 }

  predicate Decimal(ticks: seq<byte>) { forall b <- ticks :: Digit(b) }

  // An unbound journal names no process; a bound one names a process other than init.
  predicate ValidSource(pid: int, ticks: seq<byte>) {
    && (pid == 0 <==> ticks == [])
    && pid != 1 && 0 <= pid < TWO63
    && |ticks| <= MAX_TICKS && Decimal(ticks)
  }

  predicate InstanceFits(instance: seq<byte>) { |instance| <= 131 }

  // ---- std::set iterates in ascending order ----

  lemma {:induction false} HasMax(s: set<uint32>)
    requires s != {}
    ensures exists m :: m in s && forall x <- s :: x <= m
  {
    var a :| a in s;
    assert s == (s - {a}) + {a};
    if s - {a} != {} {
      HasMax(s - {a});
      var m :| m in s - {a} && forall x <- s - {a} :: x <= m;
      var top := if m < a then a else m;
      assert top in s && forall x <- s :: x <= top;
    } else {
      assert a in s && forall x <- s :: x <= a;
    }
  }

  function Max(s: set<uint32>): (m: uint32)
    requires s != {}
    ensures m in s && forall x <- s :: x <= m
  {
    HasMax(s);
    var m :| m in s && forall x <- s :: x <= m;
    m
  }

  function Ascending(s: set<uint32>): (r: seq<uint32>) {
    if s == {} then [] else Ascending(s - {Max(s)}) + [Max(s)]
  }

  ghost predicate Enumerates<T(!new)>(r: seq<T>, s: set<T>) {
    NoRepeats(r) && forall x :: x in r <==> x in s
  }

  lemma {:induction false} AscendingMembers(s: set<uint32>)
    ensures |Ascending(s)| == |s|
    ensures forall x :: x in Ascending(s) <==> x in s
  {
    if s != {} {
      var m := Max(s);
      AscendingMembers(s - {m});
      assert Ascending(s) == Ascending(s - {m}) + [m];
      assert forall x :: x in s <==> x in s - {m} || x == m;
    }
  }

  lemma {:induction false} AscendingOrder(s: set<uint32>)
    ensures forall i, j :: 0 <= i < j < |Ascending(s)| ==> Ascending(s)[i] < Ascending(s)[j]
  {
    if s != {} {
      var (m, r) := (Max(s), Ascending(s - {Max(s)}));
      AscendingOrder(s - {m});
      AscendingMembers(s - {m});
      assert forall x :: x in r ==> x < m;
      assert forall i :: 0 <= i < |r| ==> r[i] in r;
      assert Ascending(s) == r + [m];
    }
  }

  lemma AscendingLists(s: set<uint32>)
    ensures Enumerates(Ascending(s), s) && |Ascending(s)| == |s|
  {
    AscendingMembers(s);
    AscendingOrder(s);
  }

  lemma AscendingExtends(s: set<uint32>, c: uint32)
    requires forall x <- s :: x < c
    ensures Ascending(s + {c}) == Ascending(s) + [c]
  {
    var t := s + {c};
    assert c in t && Max(t) in t;
    assert t - {c} == s;
  }

  // ---- The file format ----

  datatype Entry = Entry(kind: byte, code: uint32)

  function Entries(kind: byte, codes: seq<uint32>): (r: seq<Entry>)
    ensures |r| == |codes|
    ensures forall i :: 0 <= i < |r| ==> r[i] == Entry(kind, codes[i])
  {
    seq(|codes|, i requires 0 <= i < |codes| => Entry(kind, codes[i]))
  }

  function EntryBytes(e: Entry): (r: seq<byte>)
    ensures |r| == 8
  {
    [e.kind, 0, 0, 0] + Put32(e.code)
  }

  function Body(es: seq<Entry>): (r: seq<byte>)
    ensures |r| == 8 * |es|
  {
    if es == [] then [] else Body(es[..|es| - 1]) + EntryBytes(es[|es| - 1])
  }

  function Zeros(n: nat): seq<byte> { seq(n, _ => 0) }

  function Padded(s: seq<byte>, n: nat): (r: seq<byte>)
    requires |s| <= n
    ensures |r| == n
  {
    s + Zeros(n - |s|)
  }

  // Bytes 0..252 of the header, field by field.
  function Fields(instance: seq<byte>, count: uint32, poisoned: bool, pid: nat, ticks: seq<byte>): (r: seq<byte>)
    requires InstanceFits(instance) && pid < TWO64 && |ticks| <= MAX_TICKS
    ensures |r| == HEADER_SIZE - 4
  {
    MAGIC + Put32(2) + Put32(|instance|) + Padded(instance, 136) +
    Put32(count) + Put32(if poisoned then 1 else 0) +
    Put32(pid % TWO32) + Put32(pid / TWO32) +
    Put32(|ticks|) + Padded(ticks, 80)
  }

  function Summed(s: seq<byte>): seq<byte> { s + Put32(Crc.Checksum(s)) }

  function Listing(h: Held): seq<Entry> {
    Entries(KEY, Ascending(h.keys)) + Entries(BUTTON, Ascending(h.buttons)) + Entries(MODIFIER, Ascending(h.modifiers))
  }

  function KindEntries(kind: byte, codes: set<uint32>): set<Entry> { set c <- codes :: Entry(kind, c) }

  function EntrySet(h: Held): set<Entry> {
    KindEntries(KEY, h.keys) + KindEntries(BUTTON, h.buttons) + KindEntries(MODIFIER, h.modifiers)
  }

  lemma KindListing(kind: byte, codes: set<uint32>)
    ensures Enumerates(Entries(kind, Ascending(codes)), KindEntries(kind, codes))
    ensures |Entries(kind, Ascending(codes))| == |codes|
  {
    AscendingLists(codes);
    var (r, a) := (Entries(kind, Ascending(codes)), Ascending(codes));
    forall x | x in KindEntries(kind, codes) ensures x in r {
      var i :| 0 <= i < |a| && a[i] == x.code;
      assert r[i] == x;
    }
  }

  lemma EnumeratesJoin<T(!new)>(r: seq<T>, s: set<T>, q: seq<T>, t: set<T>)
    requires Enumerates(r, s) && Enumerates(q, t) && s !! t
    ensures Enumerates(r + q, s + t)
  {
    forall x | x in s + t ensures x in r + q {
      if x in s {
        assert x in r;
      }
    }
    forall i, j | 0 <= i < j < |r + q| ensures (r + q)[i] != (r + q)[j] {
      if i < |r| <= j {
        assert r[i] in s && q[j - |r|] in t;
      }
    }
  }

  lemma ListingEnumerates(h: Held)
    ensures Enumerates(Listing(h), EntrySet(h))
    ensures |Listing(h)| == h.Count()
  {
    KindListing(KEY, h.keys);
    KindListing(BUTTON, h.buttons);
    KindListing(MODIFIER, h.modifiers);
    EnumeratesJoin(Entries(KEY, Ascending(h.keys)), KindEntries(KEY, h.keys),
                   Entries(BUTTON, Ascending(h.buttons)), KindEntries(BUTTON, h.buttons));
    EnumeratesJoin(Entries(KEY, Ascending(h.keys)) + Entries(BUTTON, Ascending(h.buttons)),
                   KindEntries(KEY, h.keys) + KindEntries(BUTTON, h.buttons),
                   Entries(MODIFIER, Ascending(h.modifiers)), KindEntries(MODIFIER, h.modifiers));
  }

  lemma ListingBounds(h: Held)
    requires h.Valid()
    ensures h.Count() <= MAX_ENTRIES
    ensures |Listing(h)| == h.Count()
    ensures forall e <- Listing(h) :: ValidCode(e.kind, e.code)
  {
    ListingEnumerates(h);
    BoundedCount(h.keys, MAX_CODE + 1);
    BoundedCount(h.buttons, MAX_CODE + 1);
    BoundedCount(h.modifiers, MODIFIER_FIELDS);
  }

  function Encode(instance: seq<byte>, s: Snapshot): (bytes: seq<byte>)
    requires InstanceFits(instance) && s.Valid()
    ensures |bytes| == HEADER_SIZE + 8 * s.held.Count() + 4 <= MAX_BYTES
  {
    ListingBounds(s.held);
    var header := Fields(instance, s.held.Count(), s.poisoned, s.pid, s.ticks);
    Summed(Summed(header) + Body(Listing(s.held)))
  }

  // ---- Bounds: the entry limit is out of reach ----

  lemma {:induction false} BoundedCount(s: set<uint32>, n: uint32)
    requires forall c <- s :: c < n
    ensures |s| <= n
  {
    if n > 0 {
      BoundedCount(s - {n - 1}, n - 1);
    } else {
      assert s == {};
    }
  }

  // preparePress() refuses at MAX_ENTRIES pending entries, but a code that is not yet pending
  // always finds room below that limit.
  lemma EntryLimitUnreachable(h: Held, kind: byte, code: uint32)
    requires h.Valid() && ValidCode(kind, code) && code !in h.Of(kind)
    ensures h.Count() < MAX_ENTRIES
  {
    var h' := h.With(kind, code);
    ListingBounds(h');
    assert h'.Of(kind) == h.Of(kind) + {code};
  }

  // ---- Reading a snapshot back ----

  function Word(bytes: seq<byte>, pos: nat): uint32
    requires pos + 4 <= |bytes|
  {
    Get32(bytes[pos..pos + 4])
  }

  lemma FieldPositions(instance: seq<byte>, count: uint32, poisoned: bool, pid: nat, ticks: seq<byte>)
    requires InstanceFits(instance) && pid < TWO64 && |ticks| <= MAX_TICKS
    ensures var f := Fields(instance, count, poisoned, pid, ticks);
      && f[0..8] == MAGIC && f[8..12] == Put32(2) && f[12..16] == Put32(|instance|)
      && f[16..152] == Padded(instance, 136) && f[152..156] == Put32(count)
      && f[156..160] == Put32(if poisoned then 1 else 0)
      && f[160..164] == Put32(pid % TWO32) && f[164..168] == Put32(pid / TWO32)
      && f[168..172] == Put32(|ticks|) && f[172..252] == Padded(ticks, 80)
  {}

  ghost predicate HeaderReads(bytes: seq<byte>, instance: seq<byte>, count: uint32, poisoned: bool, pid: nat,
                              ticks: seq<byte>)
    requires |bytes| >= HEADER_SIZE + 4 && InstanceFits(instance) && |ticks| <= MAX_TICKS
  {
    && bytes[0..8] == MAGIC && Word(bytes, 8) == 2 && Word(bytes, 12) == |instance|
    && bytes[16..16 + |instance|] == instance && Word(bytes, 152) == count
    && Word(bytes, 156) == (if poisoned then 1 else 0)
    && Word(bytes, 160) + TWO32 * Word(bytes, 164) == pid
    && Word(bytes, 168) == |ticks| && bytes[172..172 + |ticks|] == ticks
  }

  ghost predicate EntryReads(bytes: seq<byte>, pos: nat, e: Entry)
    requires pos + 8 <= |bytes|
  {
    && bytes[pos] == e.kind && bytes[pos + 1] == 0 && bytes[pos + 2] == 0 && bytes[pos + 3] == 0
    && Word(bytes, pos + 4) == e.code
  }

  lemma WordAt(bytes: seq<byte>, pos: nat, value: uint32)
    requires pos + 4 <= |bytes| && bytes[pos..pos + 4] == Put32(value)
    ensures Word(bytes, pos) == value
  {
    GetPut(value);
  }

  lemma WordWithin(bytes: seq<byte>, n: nat, pos: nat, value: uint32)
    requires pos + 4 <= n <= |bytes|
    requires bytes[..n][pos..pos + 4] == Put32(value)
    ensures Word(bytes, pos) == value
  {
    Within(bytes, n, pos, pos + 4);
    GetPut(value);
  }

  lemma HeaderOfFields(bytes: seq<byte>, instance: seq<byte>, count: uint32, poisoned: bool, pid: nat, ticks: seq<byte>)
    requires |bytes| >= HEADER_SIZE + 4
    requires InstanceFits(instance) && pid < TWO64 && |ticks| <= MAX_TICKS
    requires bytes[..HEADER_SIZE - 4] == Fields(instance, count, poisoned, pid, ticks)
    ensures HeaderReads(bytes, instance, count, poisoned, pid, ticks)
  {
    FieldPositions(instance, count, poisoned, pid, ticks);
    Within(bytes, 252, 0, 8);
    WordWithin(bytes, 252, 8, 2);
    WordWithin(bytes, 252, 12, |instance|);
    Within(bytes, 252, 16, 152);
    WordWithin(bytes, 252, 152, count);
    WordWithin(bytes, 252, 156, if poisoned then 1 else 0);
    WordWithin(bytes, 252, 160, pid % TWO32);
    WordWithin(bytes, 252, 164, pid / TWO32);
    WordWithin(bytes, 252, 168, |ticks|);
    Within(bytes, 252, 172, 252);
    assert bytes[16..16 + |instance|] == bytes[16..152][..|instance|];
    assert bytes[172..172 + |ticks|] == bytes[172..252][..|ticks|];
  }

  lemma HeaderOfEncoding(instance: seq<byte>, s: Snapshot)
    requires InstanceFits(instance) && s.Valid()
    ensures HeaderReads(Encode(instance, s), instance, s.held.Count(), s.poisoned, s.pid, s.ticks)
  {
    ListingBounds(s.held);
    var (bytes, f) := (Encode(instance, s), Fields(instance, s.held.Count(), s.poisoned, s.pid, s.ticks));
    assert bytes[..252] == f;
    HeaderOfFields(bytes, instance, s.held.Count(), s.poisoned, s.pid, s.ticks);
  }

  lemma Within(bytes: seq<byte>, n: nat, i: nat, j: nat)
    requires i <= j <= n <= |bytes|
    ensures bytes[..n][i..j] == bytes[i..j]
  {}

  lemma {:induction false} BodyEntry(es: seq<Entry>, k: nat)
    requires k < |es|
    ensures Body(es)[8 * k..8 * k + 8] == EntryBytes(es[k])
  {
    var last := |es| - 1;
    if k < last {
      BodyEntry(es[..last], k);
      assert Body(es)[8 * k..8 * k + 8] == Body(es[..last])[8 * k..8 * k + 8];
    }
  }

  lemma EntryOfBytes(bytes: seq<byte>, pos: nat, e: Entry)
    requires pos + 8 <= |bytes|
    requires bytes[pos..pos + 8] == EntryBytes(e)
    ensures EntryReads(bytes, pos, e)
  {
    assert bytes[pos + 4..pos + 4 + 4] == bytes[pos..pos + 8][4..8];
    WordAt(bytes, pos + 4, e.code);
    var p := bytes[pos..pos + 8];
    assert p[0] == bytes[pos] && p[1] == bytes[pos + 1] && p[2] == bytes[pos + 2] && p[3] == bytes[pos + 3];
  }

  lemma EntryOfEncoding(instance: seq<byte>, s: Snapshot, k: nat)
    requires InstanceFits(instance) && s.Valid() && k < s.held.Count()
    ensures |Listing(s.held)| == s.held.Count()
    ensures EntryReads(Encode(instance, s), HEADER_SIZE + 8 * k, Listing(s.held)[k])
  {
    hide Fields, Body, Listing, EntryReads, EntryBytes, Put32, Crc.Checksum;
    ListingBounds(s.held);
    var (bytes, body, pos) := (Encode(instance, s), Body(Listing(s.held)), HEADER_SIZE + 8 * k);
    BodyEntry(Listing(s.held), k);
    Middle(bytes, Summed(Fields(instance, s.held.Count(), s.poisoned, s.pid, s.ticks)), body, 8 * k, 8 * k + 8);
    EntryOfBytes(bytes, pos, Listing(s.held)[k]);
  }

  lemma Middle(bytes: seq<byte>, head: seq<byte>, body: seq<byte>, i: nat, j: nat)
    requires head + body <= bytes && i <= j <= |body|
    ensures bytes[|head| + i..|head| + j] == body[i..j]
  {}

  // Both stored checksums of a snapshot match.
  ghost predicate SumsMatch(bytes: seq<byte>)
    requires |bytes| >= HEADER_SIZE + 4
  {
    && Crc.Checksum(bytes[..HEADER_SIZE - 4]) == Word(bytes, HEADER_SIZE - 4)
    && Crc.Checksum(bytes[..|bytes| - 4]) == Word(bytes, |bytes| - 4)
  }

  lemma SumsOfEncoding(instance: seq<byte>, s: Snapshot)
    requires InstanceFits(instance) && s.Valid()
    ensures SumsMatch(Encode(instance, s))
  {
    hide Fields, Listing, Body;
    ListingBounds(s.held);
    var f := Fields(instance, s.held.Count(), s.poisoned, s.pid, s.ticks);
    var (h, bytes) := (Summed(f) + Body(Listing(s.held)), Encode(instance, s));
    SumAt(h, bytes);
    assert Summed(f) <= h;
    SumAt(f, bytes);
  }

  lemma SumAt(s: seq<byte>, bytes: seq<byte>)
    requires Summed(s) <= bytes
    ensures bytes[..|s|] == s && Word(bytes, |s|) == Crc.Checksum(s)
  {
    assert bytes[|s|..|s| + 4] == Put32(Crc.Checksum(s));
    WordAt(bytes, |s|, Crc.Checksum(s));
  }

  lemma HeldFromEntries(h: Held, g: Held)
    requires EntrySet(h) == EntrySet(g)
    ensures h == g
  {
    forall c ensures c in h.keys <==> c in g.keys {
      assert c in h.keys <==> Entry(KEY, c) in EntrySet(h);
      assert c in g.keys <==> Entry(KEY, c) in EntrySet(g);
    }
    forall c ensures c in h.buttons <==> c in g.buttons {
      assert c in h.buttons <==> Entry(BUTTON, c) in EntrySet(h);
      assert c in g.buttons <==> Entry(BUTTON, c) in EntrySet(g);
    }
    forall c ensures c in h.modifiers <==> c in g.modifiers {
      assert c in h.modifiers <==> Entry(MODIFIER, c) in EntrySet(h);
      assert c in g.modifiers <==> Entry(MODIFIER, c) in EntrySet(g);
    }
  }

  lemma EncodeInjective(instance: seq<byte>, s: Snapshot, t: Snapshot)
    requires InstanceFits(instance) && s.Valid() && t.Valid()
    requires Encode(instance, s) == Encode(instance, t)
    ensures s == t
  {
    HeaderOfEncoding(instance, s);
    HeaderOfEncoding(instance, t);
    ListingEnumerates(s.held);
    ListingEnumerates(t.held);
    forall k | 0 <= k < s.held.Count() ensures Listing(s.held)[k] == Listing(t.held)[k] {
      EntryOfEncoding(instance, s, k);
      EntryOfEncoding(instance, t, k);
    }
    assert Listing(s.held) == Listing(t.held);
    HeldFromEntries(s.held, t.held);
  }

  // What a file means: the one snapshot it encodes, if there is one.
  ghost function Meaning(instance: seq<byte>, bytes: seq<byte>): Option<Snapshot>
    requires InstanceFits(instance)
  {
    if exists s: Snapshot :: s.Valid() && Encode(instance, s) == bytes then
      var s: Snapshot :| s.Valid() && Encode(instance, s) == bytes;
      Some(s)
    else None
  }

  lemma MeaningImage(instance: seq<byte>, bytes: seq<byte>)
    requires InstanceFits(instance) && Meaning(instance, bytes).Some?
    ensures Meaning(instance, bytes).value.Valid()
    ensures Encode(instance, Meaning(instance, bytes).value) == bytes
  {}

  lemma DecodeEncode(instance: seq<byte>, s: Snapshot)
    requires InstanceFits(instance) && s.Valid()
    ensures Meaning(instance, Encode(instance, s)) == Some(s)
  {
    var r := Meaning(instance, Encode(instance, s));
    EncodeInjective(instance, s, r.value);
  }

  // ---- No burst of up to four consecutive damaged bytes is ever accepted ----

  lemma BurstRejected(instance: seq<byte>, p: seq<byte>, a: seq<byte>, b: seq<byte>, q: seq<byte>)
    requires InstanceFits(instance) && |a| == |b| <= 4 && a != b
    requires Meaning(instance, p + a + q).Some?
    ensures Meaning(instance, p + b + q).None?
  {
    WholeFileResidue(instance, p + a + q);
    if Meaning(instance, p + b + q).Some? {
      WholeFileResidue(instance, p + b + q);
      Crc.BurstChangesRegister(p, a, b, q);
    }
  }

  lemma WholeFileResidue(instance: seq<byte>, bytes: seq<byte>)
    requires InstanceFits(instance) && Meaning(instance, bytes).Some?
    ensures Crc.Register(bytes) == Crc.RESIDUE
  {
    hide Meaning, Crc.Register;
    MeaningImage(instance, bytes);
    var n := |bytes| - 4;
    SumsOfEncoding(instance, Meaning(instance, bytes).value);
    Crc.DigestResidue(bytes[..n], bytes[n..n + 4]);
    assert bytes == bytes[..n] + bytes[n..n + 4];
  }

  // ---- The layout, by the numbers ----

  // The word at a place, lowest byte first.
  ghost function Little(b: seq<byte>, pos: nat): nat
    requires pos + 4 <= |b|
  {
    (b[pos] as int) + 0x100 * (b[pos + 1] as int) + 0x1_0000 * (b[pos + 2] as int) + 0x100_0000 * (b[pos + 3] as int)
  }

  lemma LittleIsWord(b: seq<byte>, pos: nat)
    requires pos + 4 <= |b|
    ensures Little(b, pos) == Word(b, pos)
  {
    LittleEndian(b[pos..pos + 4]);
  }

  // What may be recorded at all.
  lemma SnapshotMeans(s: Snapshot)
    ensures s.Valid() <==>
      && (forall c <- s.held.keys :: c <= 767) && (forall c <- s.held.buttons :: c <= 767)
      && (forall c <- s.held.modifiers :: c <= 3)
      && (if s.pid == 0 then s.ticks == [] else 2 <= s.pid < 0x8000_0000_0000_0000 && 1 <= |s.ticks| <= 32)
      && (forall i :: 0 <= i < |s.ticks| ==> '0' as int <= s.ticks[i] <= '9' as int)
  {
    if Decimal(s.ticks) {
      forall i | 0 <= i < |s.ticks| ensures '0' as int <= s.ticks[i] <= '9' as int { assert s.ticks[i] in s.ticks; }
    }
  }

  lemma CodeMeans(kind: byte, code: uint32)
    ensures ValidCode(kind, code) <==>
      (kind == 'k' as int && code <= 767) || (kind == 'b' as int && code <= 767) || (kind == 'm' as int && code <= 3)
    ensures ValidKind(kind) <==> kind in {'k' as int, 'b' as int, 'm' as int}
  {}

  // The header and the two checksums of a file.
  lemma FileLayout(instance: seq<byte>, s: Snapshot)
    requires InstanceFits(instance) && s.Valid()
    ensures
      var (b, n) := (Encode(instance, s), |s.held.keys| + |s.held.buttons| + |s.held.modifiers|);
      && |b| == 260 + 8 * n
      && b[0..8] == ['O' as int, 'D' as int, 'S' as int, 'J' as int, 'N' as int, 'L' as int, '0' as int, '2' as int]
      && Little(b, 8) == 2 && Little(b, 12) == |instance| && b[16..16 + |instance|] == instance
      && Little(b, 152) == n && Little(b, 156) == (if s.poisoned then 1 else 0)
      && Little(b, 160) + 0x1_0000_0000 * Little(b, 164) == s.pid
      && Little(b, 168) == |s.ticks| && b[172..172 + |s.ticks|] == s.ticks
      && Little(b, 252) == Crc.Checksum(b[..252]) && Little(b, |b| - 4) == Crc.Checksum(b[..|b| - 4])
  {
    hide Encode, Little, Word;
    var b := Encode(instance, s);
    HeaderOfEncoding(instance, s);
    SumsOfEncoding(instance, s);
    LittleIsWord(b, 8);
    LittleIsWord(b, 12);
    LittleIsWord(b, 152);
    LittleIsWord(b, 156);
    LittleIsWord(b, 160);
    LittleIsWord(b, 164);
    LittleIsWord(b, 168);
    LittleIsWord(b, 252);
    LittleIsWord(b, |b| - 4);
  }

  // Entry i: its kind, three zeros and its code; the keys come first, then the buttons, then the
  // modifiers, each in ascending order.
  lemma EntryLayout(instance: seq<byte>, s: Snapshot, i: nat)
    requires InstanceFits(instance) && s.Valid() && i < |s.held.keys| + |s.held.buttons| + |s.held.modifiers|
    ensures
      var (b, pos, keys, buttons) := (Encode(instance, s), 256 + 8 * i, |s.held.keys|, |s.held.buttons|);
      && b[pos + 1] == b[pos + 2] == b[pos + 3] == 0
      && (i < keys ==> b[pos] == 'k' as int && Little(b, pos + 4) in s.held.keys)
      && (keys <= i < keys + buttons ==> b[pos] == 'b' as int && Little(b, pos + 4) in s.held.buttons)
      && (keys + buttons <= i ==> b[pos] == 'm' as int && Little(b, pos + 4) in s.held.modifiers)
      && (i > 0 && b[pos - 8] == b[pos] ==> Little(b, pos - 4) < Little(b, pos + 4))
  {
    hide Encode, Little, Word, Ascending, Held.Valid;
    var (b, pos, l) := (Encode(instance, s), 256 + 8 * i, Listing(s.held));
    EntryOfEncoding(instance, s, i);
    LittleIsWord(b, pos + 4);
    ListedAt(s.held, i);
    if i > 0 {
      EntryOfEncoding(instance, s, i - 1);
      LittleIsWord(b, pos - 4);
    }
  }

  lemma ListedAt(h: Held, i: nat)
    requires i < |h.keys| + |h.buttons| + |h.modifiers|
    ensures |Listing(h)| == |h.keys| + |h.buttons| + |h.modifiers|
    ensures var e := Listing(h)[i];
      && (i < |h.keys| ==> e.kind == 'k' as int && e.code in h.keys)
      && (|h.keys| <= i < |h.keys| + |h.buttons| ==> e.kind == 'b' as int && e.code in h.buttons)
      && (|h.keys| + |h.buttons| <= i ==> e.kind == 'm' as int && e.code in h.modifiers)
      && (i > 0 && Listing(h)[i - 1].kind == e.kind ==> Listing(h)[i - 1].code < e.code)
  {
    hide Ascending;
    AscendingMembers(h.keys);
    AscendingMembers(h.buttons);
    AscendingMembers(h.modifiers);
    AscendingOrder(h.keys);
    AscendingOrder(h.buttons);
    AscendingOrder(h.modifiers);
  }

  // What is left of the two fixed fields is zero.
  lemma PaddingIsZero(instance: seq<byte>, s: Snapshot, i: nat)
    requires InstanceFits(instance) && s.Valid()
    requires 16 + |instance| <= i < 152 || 172 + |s.ticks| <= i < 252
    ensures Encode(instance, s)[i] == 0
  {
    hide Crc.Checksum, Listing, Body, Held.Valid;
    ListingBounds(s.held);
    var (b, f) := (Encode(instance, s), Fields(instance, s.held.Count(), s.poisoned, s.pid, s.ticks));
    assert b[..252] == f && b[i] == b[..252][i];
    FieldPadding(instance, s.held.Count(), s.poisoned, s.pid, s.ticks, i);
  }

  lemma FieldPadding(instance: seq<byte>, count: uint32, poisoned: bool, pid: nat, ticks: seq<byte>, i: nat)
    requires InstanceFits(instance) && pid < TWO64 && |ticks| <= MAX_TICKS
    requires 16 + |instance| <= i < 152 || 172 + |ticks| <= i < 252
    ensures Fields(instance, count, poisoned, pid, ticks)[i] == 0
  {
    hide Fields;
    var f := Fields(instance, count, poisoned, pid, ticks);
    FieldPositions(instance, count, poisoned, pid, ticks);
    if i < 152 { assert f[i] == f[16..152][i - 16]; } else { assert f[i] == f[172..252][i - 172]; }
  }
}
