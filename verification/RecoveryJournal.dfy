// The durable intent journal: class RecoveryJournal of scope-provenance.hpp.
module RecoveryJournal {
  import opened Options
  import opened Words
  import opened Codec
  import opened JournalSpec
  import Crc
  import Disk

  ghost function View(disk: Disk.Directory): Store
    reads disk
  {
    Store(disk.main, disk.mains, disk.poison, disk.poisons)
  }

  lemma Associate(a: seq<byte>, b: seq<byte>, c: seq<byte>)
    ensures a + b + c == a + (b + c)
  {}

  // Replaces the bytes from pos on.
  function Stored(bytes: seq<byte>, pos: nat, data: seq<byte>): (r: seq<byte>)
    requires pos + |data| <= |bytes|
    ensures |r| == |bytes|
  {
    bytes[..pos] + data + bytes[pos + |data|..]
  }

  // Fills the next field of the header, of which only pre has been filled so far.
  method StoreField(bytes: seq<byte>, ghost pre: seq<byte>, pos: nat, data: seq<byte>, ghost width: nat)
    returns (r: seq<byte>)
    requires |bytes| == HEADER_SIZE && pos == |pre| <= |bytes| && bytes == pre + Zeros(HEADER_SIZE - |pre|)
    requires |data| <= width <= HEADER_SIZE - |pre|
    ensures r == pre + Padded(data, width) + Zeros(HEADER_SIZE - |pre| - width)
    ensures |data| == width ==> Padded(data, width) == data
  {
    r := Stored(bytes, pos, data);
  }

  method StoreHeader(instance: seq<byte>, poisoned: bool, pid: nat, ticks: seq<byte>) returns (bytes: seq<byte>)
    requires InstanceFits(instance) && pid < TWO64 && |ticks| <= MAX_TICKS
    ensures bytes == Fields(instance, 0, poisoned, pid, ticks) + Zeros(4)
  {
    bytes := Zeros(HEADER_SIZE);
    ghost var pre: seq<byte> := [];
    bytes := StoreField(bytes, pre, 0, MAGIC, 8);
    pre := MAGIC;
    bytes := StoreField(bytes, pre, 8, Put32(2), 4);
    pre := pre + Put32(2);
    bytes := StoreField(bytes, pre, 12, Put32(|instance|), 4);
    pre := pre + Put32(|instance|);
    bytes := StoreField(bytes, pre, 16, instance, 136);
    pre := pre + Padded(instance, 136);
    bytes := StoreField(bytes, pre, 152, Put32(0), 4);
    pre := pre + Put32(0);
    bytes := StoreField(bytes, pre, 156, Put32(if poisoned then 1 else 0), 4);
    pre := pre + Put32(if poisoned then 1 else 0);
    bytes := StoreField(bytes, pre, 160, Put32(pid % TWO32), 4);
    pre := pre + Put32(pid % TWO32);
    bytes := StoreField(bytes, pre, 164, Put32(pid / TWO32), 4);
    pre := pre + Put32(pid / TWO32);
    bytes := StoreField(bytes, pre, 168, Put32(|ticks|), 4);
    pre := pre + Put32(|ticks|);
    bytes := StoreField(bytes, pre, 172, ticks, 80);
  }

  lemma StoredMiddle(a: seq<byte>, x: seq<byte>, y: seq<byte>, b: seq<byte>)
    requires |x| == |y|
    ensures Stored(a + x + b, |a|, y) == a + y + b
  {}

  lemma CountStored(instance: seq<byte>, count: uint32, poisoned: bool, pid: nat, ticks: seq<byte>, rest: seq<byte>)
    requires InstanceFits(instance) && pid < TWO64 && |ticks| <= MAX_TICKS
    ensures Stored(Fields(instance, 0, poisoned, pid, ticks) + rest, 152, Put32(count)) ==
            Fields(instance, count, poisoned, pid, ticks) + rest
  {
    var head := MAGIC + Put32(2) + Put32(|instance|) + Padded(instance, 136);
    var tail := Put32(if poisoned then 1 else 0) + Put32(pid % TWO32) + Put32(pid / TWO32) + Put32(|ticks|)
      + Padded(ticks, 80);
    FieldsAround(instance, 0, poisoned, pid, ticks, rest);
    FieldsAround(instance, count, poisoned, pid, ticks, rest);
    StoredMiddle(head, Put32(0), Put32(count), tail + rest);
  }

  lemma FieldsAround(instance: seq<byte>, count: uint32, poisoned: bool, pid: nat, ticks: seq<byte>, rest: seq<byte>)
    requires InstanceFits(instance) && pid < TWO64 && |ticks| <= MAX_TICKS
    ensures var head := MAGIC + Put32(2) + Put32(|instance|) + Padded(instance, 136);
            var tail := Put32(if poisoned then 1 else 0) + Put32(pid % TWO32) + Put32(pid / TWO32) + Put32(|ticks|)
              + Padded(ticks, 80);
            Fields(instance, count, poisoned, pid, ticks) + rest == head + Put32(count) + (tail + rest)
  {}

  // Fills in the count, the header's checksum and the digest.
  method Seal(unsealed: seq<byte>, ghost instance: seq<byte>, ghost s: Snapshot, ghost body: seq<byte>)
    returns (bytes: seq<byte>)
    requires InstanceFits(instance) && s.Valid() && |body| == 8 * s.held.Count() && s.held.Count() < TWO32
    requires unsealed == Fields(instance, 0, s.poisoned, s.pid, s.ticks) + Zeros(4) + body
    ensures bytes == Summed(Summed(Fields(instance, s.held.Count(), s.poisoned, s.pid, s.ticks)) + body)
  {
    ghost var f := Fields(instance, s.held.Count(), s.poisoned, s.pid, s.ticks);
    CountStored(instance, s.held.Count(), s.poisoned, s.pid, s.ticks, Zeros(4) + body);
    Associate(Fields(instance, 0, s.poisoned, s.pid, s.ticks), Zeros(4), body);
    Associate(f, Zeros(4), body);
    bytes := Stored(unsealed, 152, Put32((|unsealed| - HEADER_SIZE) / 8));
    assert bytes == f + Zeros(4) + body;
    var sum := Crc.ComputeChecksum(bytes, HEADER_SIZE - 4);
    assert bytes[..HEADER_SIZE - 4] == f;
    StoredMiddle(f, Zeros(4), Put32(sum), body);
    bytes := Stored(bytes, HEADER_SIZE - 4, Put32(sum));
    var digest := Crc.ComputeChecksum(bytes, |bytes|);
    assert bytes[..|bytes|] == bytes;
    bytes := bytes + Put32(digest);
  }

  function Excluding(h: Held, exclude: Option<Entry>): Held {
    if exclude.Some? then h.Without(exclude.value.kind, exclude.value.code) else h
  }

  lemma KindBodies(header: seq<byte>, h: Held, exclude: Option<Entry>)
    ensures var h' := Excluding(h, exclude);
            header + KindBody(KEY, Rest(KEY, h.keys, exclude)) + KindBody(BUTTON, Rest(BUTTON, h.buttons, exclude)) +
            KindBody(MODIFIER, Rest(MODIFIER, h.modifiers, exclude)) == header + Body(Listing(h'))
  {
    var h' := Excluding(h, exclude);
    var (k, b, m) := (Entries(KEY, Ascending(h'.keys)), Entries(BUTTON, Ascending(h'.buttons)),
      Entries(MODIFIER, Ascending(h'.modifiers)));
    BodyConcat(k, b);
    BodyConcat(k + b, m);
    Associate(header, Body(k), Body(b));
    Associate(header, Body(k) + Body(b), Body(m));
  }

  lemma {:induction false} BodyConcat(a: seq<Entry>, b: seq<Entry>)
    ensures Body(a + b) == Body(a) + Body(b)
  {
    if b == [] {
      assert a + b == a;
    } else {
      assert (a + b)[..|a + b| - 1] == a + b[..|b| - 1];
      BodyConcat(a, b[..|b| - 1]);
    }
  }

  // The entries of one held set, in the order std::set iterates.
  function KindBody(kind: byte, codes: set<uint32>): seq<byte>
  {
    Body(Entries(kind, Ascending(codes)))
  }

  function Rest(kind: byte, held: set<uint32>, exclude: Option<Entry>): set<uint32> {
    if exclude.Some? && exclude.value.kind == kind then held - {exclude.value.code} else held
  }

  // The bytes add() appends for an ascending list of codes.
  function Listed(kind: byte, codes: seq<uint32>, exclude: Option<Entry>): seq<byte> {
    if codes == [] then [] else
      var code := codes[|codes| - 1];
      Listed(kind, codes[..|codes| - 1], exclude) +
      (if exclude == Some(Entry(kind, code)) then [] else EntryBytes(Entry(kind, code)))
  }

  lemma KindBodyExtends(kind: byte, codes: set<uint32>, code: uint32)
    requires forall c <- codes :: c < code
    ensures KindBody(kind, codes + {code}) == KindBody(kind, codes) + EntryBytes(Entry(kind, code))
  {
    AscendingExtends(codes, code);
    var (es, e) := (Entries(kind, Ascending(codes)), Entry(kind, code));
    assert Entries(kind, Ascending(codes + {code})) == es + [e];
    assert (es + [e])[..|es|] == es;
  }

  lemma BelowMax(kind: byte, held: set<uint32>, exclude: Option<Entry>)
    requires held != {}
    ensures forall c <- Rest(kind, held - {Max(held)}, exclude) :: c < Max(held)
  {
    assert forall c <- held :: c <= Max(held);
  }

  lemma {:induction false} ListedSkips(kind: byte, held: set<uint32>, exclude: Option<Entry>)
    ensures Listed(kind, Ascending(held), exclude) == KindBody(kind, Rest(kind, held, exclude))
  {
    if held == {} {
      assert Rest(kind, held, exclude) == {};
    } else {
      var m := Max(held);
      ListedSkips(kind, held - {m}, exclude);
      var (rest, before) := (Rest(kind, held, exclude), Rest(kind, held - {m}, exclude));
      assert (Ascending(held - {m}) + [m])[..|Ascending(held - {m})|] == Ascending(held - {m});
      if exclude == Some(Entry(kind, m)) {
        assert rest == before;
      } else {
        assert rest == before + {m};
        BelowMax(kind, held, exclude);
        KindBodyExtends(kind, before, m);
      }
    }
  }

  method CheckSums(bytes: seq<byte>) returns (ok: bool)
    requires HEADER_SIZE + 4 <= |bytes|
    ensures ok <==> SumsMatch(bytes)
  {
    var header := Crc.ComputeChecksum(bytes, HEADER_SIZE - 4);
    var digest := Crc.ComputeChecksum(bytes, |bytes| - 4);
    ok := header == Word(bytes, HEADER_SIZE - 4) && digest == Word(bytes, |bytes| - 4);
  }

  class Journal {
    const disk: Disk.Directory
    const instance: seq<byte>
    var attempted: bool
    var ready: bool
    var poisoned: bool
    var keys: set<uint32>
    var buttons: set<uint32>
    var modifiers: set<uint32>
    var sourcePID: int
    var sourceStartTicks: seq<byte>

    function Mem(): Memory
      reads this
    {
      Memory(attempted, ready, poisoned, Held(keys, buttons, modifiers), sourcePID, sourceStartTicks)
    }

    ghost predicate Valid()
      reads this, disk
    {
      && disk.Valid() && InstanceFits(instance)
      && Mem().Sound() && (!attempted ==> Mem() == BLANK)
    }

    constructor (disk: Disk.Directory, instance: seq<byte>)
      requires disk.Valid() && InstanceFits(instance)
      ensures Valid() && Mem() == BLANK && this.disk == disk && this.instance == instance
    {
      this.disk, this.instance := disk, instance;
      attempted, ready, poisoned := false, false, false;
      keys, buttons, modifiers := {}, {}, {};
      sourcePID, sourceStartTicks := 0, [];
    }

    // add(): appends one held set in ascending order, skipping the excluded entry.
    static method AddEntries(bytes: seq<byte>, kind: byte, held: set<uint32>, exclude: Option<Entry>)
      returns (r: seq<byte>)
      ensures r == bytes + KindBody(kind, Rest(kind, held, exclude))
    {
      var codes := Ascending(held);
      var listed: seq<byte> := [];
      for i := 0 to |codes|
        invariant listed == Listed(kind, codes[..i], exclude)
      {
        assert codes[..i + 1][..i] == codes[..i];
        if exclude == Some(Entry(kind, codes[i])) {
          continue;
        }
        listed := listed + EntryBytes(Entry(kind, codes[i]));
      }
      assert codes[..|codes|] == codes;
      ListedSkips(kind, held, exclude);
      r := bytes + listed;
    }

    // encode(): the bytes of a snapshot without the excluded entry.
    method Encoded(exclude: Option<Entry>) returns (bytes: seq<byte>)
      requires InstanceFits(instance) && Mem().Image().Valid()
      ensures Mem().Image().(held := Excluding(Mem().held, exclude)).Valid()
      ensures bytes == Encode(instance, Mem().Image().(held := Excluding(Mem().held, exclude)))
    {
      hide Listing, Body, KindBody, Fields, Summed, Zeros, Held.Count;
      ghost var s := Mem().Image().(held := Excluding(Mem().held, exclude));
      ListingBounds(s.held);
      bytes := StoreHeader(instance, poisoned, sourcePID, sourceStartTicks);
      KindBodies(bytes, Mem().held, exclude);
      bytes := AddEntries(bytes, KEY, keys, exclude);
      bytes := AddEntries(bytes, BUTTON, buttons, exclude);
      bytes := AddEntries(bytes, MODIFIER, modifiers, exclude);
      bytes := Seal(bytes, instance, s, Body(Listing(s.held)));
    }

    // decode(): fills the fields from a file's bytes; on refusal they keep what was read.
    method Decode(bytes: seq<byte>) returns (ok: bool)
      requires InstanceFits(instance) && HEADER_SIZE + 4 <= |bytes| <= MAX_BYTES
      requires Mem().held.Empty()
      modifies this`poisoned, this`sourcePID, this`sourceStartTicks, this`keys, this`buttons, this`modifiers
      ensures ok <==> Meaning(instance, bytes).Some?
      ensures ok ==> Mem().Image() == Meaning(instance, bytes).value
    {
      hide Encode, EntrySet, SumsMatch, Shaped, Listing;
      ghost var image := Meaning(instance, bytes);
      if image.Some? {
        MeaningImage(instance, bytes);
        ImagePassesChecks(instance, bytes, image.value);
      }
      ok := ReadHeader(bytes);
      if !ok {
        return;
      }
      var held := ReadEntries(bytes, instance, image);
      keys, buttons, modifiers := held.0.keys, held.0.buttons, held.0.modifiers;
      if !held.1 {
        return false;
      }
      var again := Encoded(None);
      ok := again == bytes;
      if ok {
        DecodeEncode(instance, Mem().Image());
      }
    }

    static lemma WholeEntries(instance: seq<byte>, bytes: seq<byte>)
      requires InstanceFits(instance) && HEADER_SIZE + 4 <= |bytes| && Shaped(instance, bytes)
      ensures (|bytes| - HEADER_SIZE - 4) % 8 == 0
      ensures StoredPid(bytes) < TWO63 && |StoredTicks(bytes)| <= MAX_TICKS
    {}

    // The checks decode() makes before it looks at the entries.
    method ReadHeader(bytes: seq<byte>) returns (ok: bool)
      requires InstanceFits(instance) && HEADER_SIZE + 4 <= |bytes|
      modifies this`poisoned, this`sourcePID, this`sourceStartTicks
      ensures ok <==> HeaderAccepted(instance, bytes)
      ensures ok ==> (|bytes| - HEADER_SIZE - 4) % 8 == 0
      ensures ok ==>
        poisoned == (Word(bytes, 156) != 0) && sourcePID == StoredPid(bytes) && sourceStartTicks == StoredTicks(bytes)
    {
      hide SumsMatch, StoredPid, StoredTicks, Word;
      if !Shaped(instance, bytes) {
        return false;
      }
      WholeEntries(instance, bytes);
      var summed := CheckSums(bytes);
      if !summed {
        return false;
      }
      poisoned := Word(bytes, 156) != 0;
      sourcePID := StoredPid(bytes);
      sourceStartTicks := StoredTicks(bytes);
      ok := !((sourcePID == 0) != (sourceStartTicks == []) || sourcePID < 0 || sourcePID == 1
        || !Decimal(sourceStartTicks));
    }

    method Fail()
      modifies this`ready
      ensures !ready
    {
      ready := false;
    }

    // persist(): write the next snapshot in full, sync it, rename it into place, sync the
    // directory. o says how far this came when the call returned or the machine stopped.
    method Persist(exclude: Option<Entry>, obey: bool) returns (ok: bool, ghost o: Outcome)
      requires disk.Valid() && InstanceFits(instance) && Mem().Image().Valid()
      modifies this`ready, disk
      ensures disk.Valid() && (ok <==> o.Durable?)
      ensures obey && old(disk.alive) ==> o.Durable? && disk.alive
      ensures ready == (old(ready) && ok)
      ensures var s := Mem().Image().(held := Excluding(Mem().held, exclude));
              s.Valid() && View(disk) == JournalSpec.Persist(instance, s, old(View(disk)), o)
    {
      hide Encode;
      o := Kept;
      var bytes := Encoded(exclude);
      ok := WriteNext(bytes, obey);
      if !ok {
        Fail();
        return;
      }
      ghost var reached;
      ok, reached := disk.RenameNext(obey);
      o := if reached then Renamed else Kept;
      if !ok {
        Fail();
        return;
      }
      ok := disk.SyncDirectory(obey);
      if !ok {
        Fail();
        return;
      }
      o := Durable;
    }

    // The part of persist() that nobody can see before the rename.
    method WriteNext(bytes: seq<byte>, obey: bool) returns (ok: bool)
      requires disk.Valid()
      modifies disk`alive, disk`next
      ensures obey && old(disk.alive) ==> ok && disk.alive
      ensures ok ==> disk.next == Some(Disk.File(bytes, true))
    {
      if disk.next.Some? {
        ok := disk.UnlinkNext(obey);
        if !ok {
          return;
        }
      }
      ok := disk.CreateNext(obey);
      if !ok {
        return;
      }
      var pos := 0;
      while pos < |bytes|
        invariant pos <= |bytes| && disk.next == Some(Disk.File(bytes[..pos], false))
        invariant obey && old(disk.alive) ==> disk.alive
      {
        var count := disk.Write(bytes[pos..], obey);
        if count == 0 {
          return false;
        }
        assert bytes[..pos] + bytes[pos..][..count] == bytes[..pos + count];
        pos := pos + count;
      }
      assert bytes[..pos] == bytes;
      ok := disk.SyncNext(obey);
    }

    method PreparePress(kind: byte, code: uint32, obey: bool) returns (r: PressResult, ghost o: Outcome)
      requires Valid()
      modifies this, disk
      ensures Valid()
      ensures obey && old(disk.alive) ==> o.Durable? && disk.alive
      ensures (Mem(), View(disk), r) == Prepare(instance, old(Mem()), old(View(disk)), kind, code, o)
    {
      hide Encode, JournalSpec.Persist, Disk.Directory.Valid;
      o := if obey && disk.alive then Durable else Kept;
      if !ready || poisoned {
        return PressFailed, o;
      }
      if !ValidCode(kind, code) {
        Fail();
        return PressFailed, o;
      }
      if code in Mem().held.Of(kind) {
        return AlreadyPending, o;
      }
      if |keys| + |buttons| + |modifiers| >= MAX_ENTRIES {
        Fail();
        return PressFailed, o;
      }
      Insert(kind, code);
      var ok;
      ok, o := Persist(None, obey);
      r := if ok then Fresh else PressFailed;
    }

    method Release(kind: byte, code: uint32, obey: bool) returns (ok: bool, ghost o: Outcome)
      requires Valid()
      modifies this, disk
      ensures Valid()
      ensures obey && old(disk.alive) ==> o.Durable? && disk.alive
      ensures (Mem(), View(disk), ok) == JournalSpec.Release(instance, old(Mem()), old(View(disk)), kind, code, o)
    {
      hide Encode;
      o := if obey && disk.alive then Durable else Kept;
      if !ready || poisoned {
        return false, o;
      }
      if !ValidKind(kind) {
        Fail();
        return false, o;
      }
      if code !in Mem().held.Of(kind) {
        return true, o;
      }
      ok, o := Persist(Some(Entry(kind, code)), obey);
      if !ok {
        return;
      }
      Erase(kind, code);
    }

    // invalidate(): the marker becomes certain before the snapshot is replaced.
    method Invalidate(obey: bool) returns (ok: bool, ghost m: Marking, ghost o: Outcome)
      requires Valid()
      modifies this, disk
      ensures Valid()
      ensures obey && old(disk.alive && !(ready && !poisoned && disk.poison)) ==>
        m.MarkerDurable? && o.Durable? && disk.alive
      ensures (Mem(), View(disk), ok) == JournalSpec.Invalidate(instance, old(Mem()), old(View(disk)), m, o)
    {
      hide Encode;
      m, o := NoMarker, Kept;
      if obey && disk.alive { m, o := MarkerDurable, Durable; }
      if !ready {
        return false, m, o;
      }
      if poisoned {
        return true, m, o;
      }
      poisoned := true;
      var created;
      ghost var reached;
      created, reached := disk.CreateMarker(obey);
      m := if reached then Marked else NoMarker;
      if !created {
        Fail();
        return false, m, o;
      }
      var durable := disk.SyncDirectory(obey);
      if !durable {
        Fail();
        return false, m, o;
      }
      m := MarkerDurable;
      ok, o := Persist(None, obey);
    }

    method BindSource(pid: int, startTicks: seq<byte>, obey: bool) returns (ok: bool, ghost o: Outcome)
      requires Valid() && pid < TWO63
      modifies this, disk
      ensures Valid()
      ensures obey && old(disk.alive) ==> o.Durable? && disk.alive
      ensures (Mem(), View(disk), ok) ==
        JournalSpec.BindSource(instance, old(Mem()), old(View(disk)), pid, startTicks, o)
    {
      hide Encode;
      o := if obey && disk.alive then Durable else Kept;
      if !ready || poisoned {
        return false, o;
      }
      if pid <= 1 || startTicks == [] || |startTicks| > MAX_TICKS || !Decimal(startTicks) {
        Fail();
        return false, o;
      }
      if sourcePID == pid && sourceStartTicks == startTicks {
        return true, o;
      }
      if Mem().HasPending() {
        return false, o;
      }
      sourcePID, sourceStartTicks := pid, startTicks;
      ok, o := Persist(None, obey);
    }

    // open(): reads the snapshot and the marker, or starts a first snapshot.
    method Open(available: bool, obey: bool) returns (ok: bool, ghost o: Opening)
      requires Valid()
      modifies this, disk
      ensures Valid() && attempted && o.available == available
      ensures obey && old(disk.alive) ==> o == Opening(available, true, Durable) && disk.alive
      ensures var (j, d, r) := JournalSpec.Open(instance, old(Mem()), old(View(disk)), o);
              View(disk) == d && ok == r && ready == j.ready && (ok ==> Mem() == j)
    {
      hide Encode;
      o := if obey && disk.alive then Opening(available, true, Durable) else Opening(available, false, Kept);
      var again := attempted;
      attempted := true;
      if again || !ValidInstance(instance) || !available {
        Fail();
        return false, o;
      }
      if disk.main.None? {
        poisoned := disk.poison;
        ghost var outcome;
        ok, outcome := Persist(None, obey);
        o := o.(created := outcome);
        ready := ok;
        return;
      }
      ghost var synced;
      ok, synced := OpenExisting(obey);
      o := o.(synced := synced);
    }

    method OpenExisting(obey: bool) returns (ok: bool, ghost synced: bool)
      requires disk.Valid() && InstanceFits(instance) && Mem().held.Empty() && disk.main.Some?
      modifies this, disk
      ensures obey && old(disk.alive) ==> synced && disk.alive
      ensures disk.Valid() && attempted == old(attempted) && ready == ok
      ensures var image := Meaning(instance, old(disk.main).value);
        && ok == (image.Some? && synced)
        && (ok ==>
              var Some(s) := image;
              Mem() == Memory(attempted, true, s.poisoned || disk.poison, s.held, s.pid, s.ticks))
      ensures View(disk) ==
        if ok then Store(old(disk.main), {old(disk.main)}, old(disk.poison), {old(disk.poison)})
        else old(View(disk))
    {
      hide Encode;
      synced := obey && disk.alive;
      var bytes := disk.main.value;
      ghost var image := Meaning(instance, bytes);
      if |bytes| < HEADER_SIZE + 4 || |bytes| > MAX_BYTES {
        Fail();
        return false, synced;
      }
      ok := Decode(bytes);
      if !ok {
        Fail();
        return;
      }
      if disk.poison {
        poisoned := true;
      }
      var first := disk.SyncMain(obey);
      var second := false;
      if first {
        second := disk.SyncDirectory(obey);
      }
      ready := second;
      ok, synced := second, second;
    }

    method Erase(kind: byte, code: uint32)
      requires ValidKind(kind)
      modifies this`keys, this`buttons, this`modifiers
      ensures Mem().held == old(Mem().held).Without(kind, code)
    {
      if kind == KEY {
        keys := keys - {code};
      } else if kind == BUTTON {
        buttons := buttons - {code};
      } else {
        modifiers := modifiers - {code};
      }
    }

    method Insert(kind: byte, code: uint32)
      requires ValidKind(kind)
      modifies this`keys, this`buttons, this`modifiers
      ensures Mem().held == old(Mem().held).With(kind, code)
    {
      if kind == KEY {
        keys := keys + {code};
      } else if kind == BUTTON {
        buttons := buttons + {code};
      } else {
        modifiers := modifiers + {code};
      }
    }
  }

  // ---- What decode() checks before it looks at the entries ----

  predicate Shaped(instance: seq<byte>, bytes: seq<byte>)
    requires InstanceFits(instance) && HEADER_SIZE + 4 <= |bytes|
  {
    && bytes[0..8] == MAGIC && Word(bytes, 8) == 2 && Word(bytes, 12) == |instance|
    && bytes[16..16 + |instance|] == instance
    && Word(bytes, 152) <= MAX_ENTRIES && Word(bytes, 156) <= 1 && Word(bytes, 168) <= MAX_TICKS
    && |bytes| == HEADER_SIZE + 4 + Word(bytes, 152) * 8
  }

  // The int64 with these 64 bits.
  function Signed64(n: nat): int
    requires n < TWO64
  {
    if n < TWO63 then n else n - TWO64
  }

  function StoredPid(bytes: seq<byte>): int
    requires HEADER_SIZE + 4 <= |bytes|
  {
    Signed64(Word(bytes, 160) + TWO32 * Word(bytes, 164))
  }

  function StoredTicks(bytes: seq<byte>): seq<byte>
    requires HEADER_SIZE + 4 <= |bytes| && Word(bytes, 168) <= MAX_TICKS
  {
    bytes[172..172 + Word(bytes, 168)]
  }

  ghost predicate HeaderAccepted(instance: seq<byte>, bytes: seq<byte>)
    requires InstanceFits(instance) && HEADER_SIZE + 4 <= |bytes|
  {
    && Shaped(instance, bytes) && SumsMatch(bytes)
    && ValidSource(StoredPid(bytes), StoredTicks(bytes))
  }

  lemma ImagePassesChecks(instance: seq<byte>, bytes: seq<byte>, s: Snapshot)
    requires InstanceFits(instance) && s.Valid() && Encode(instance, s) == bytes
    ensures HeaderAccepted(instance, bytes) && Word(bytes, 152) == s.held.Count() == |Listing(s.held)|
    ensures (Word(bytes, 156) != 0 <==> s.poisoned) && StoredPid(bytes) == s.pid && StoredTicks(bytes) == s.ticks
  {
    HeaderOfEncoding(instance, s);
    SumsOfEncoding(instance, s);
    ListingBounds(s.held);
  }

  // One turn of the entry loop: the entry must be well formed and new.
  function ReadEntry(bytes: seq<byte>, pos: nat, h: Held): (r: Option<Held>)
    requires pos + 8 <= |bytes|
    ensures r.Some? && h.Valid() ==> r.value.Valid()
  {
    var (kind, code) := (bytes[pos], Word(bytes, pos + 4));
    if !ValidKind(kind) || bytes[pos + 1] != 0 || bytes[pos + 2] != 0 || bytes[pos + 3] != 0 ||
      !ValidCode(kind, code) || code in h.Of(kind)
    then None
    else Some(h.With(kind, code))
  }

  // The entry loop of decode(): the sets as they stand when it ends, and whether it ended well.
  method ReadEntries(bytes: seq<byte>, ghost instance: seq<byte>, ghost image: Option<Snapshot>)
    returns (r: (Held, bool))
    requires |bytes| >= HEADER_SIZE + 4 && (|bytes| - HEADER_SIZE - 4) % 8 == 0 && InstanceFits(instance)
    requires image.Some? ==> image.value.Valid() && Encode(instance, image.value) == bytes
    ensures r.1 ==> r.0.Valid()
    ensures image.Some? ==> r == (image.value.held, true)
  {
    hide Encode, ReadEntry;
    var (h, pos) := (Held({}, {}, {}), HEADER_SIZE);
    ghost var k := 0;
    while pos + 4 < |bytes|
      invariant pos == HEADER_SIZE + 8 * k && pos + 4 <= |bytes| && h.Valid()
      invariant image.Some? ==> Parsed(image.value.held, k, h)
    {
      if image.Some? {
        NextEntry(instance, image.value, k, h);
      }
      var inserted := ReadEntry(bytes, pos, h);
      if inserted.None? {
        return (h, false);
      }
      h := inserted.value;
      pos := pos + 8;
      k := k + 1;
    }
    if image.Some? {
      WholeListing(instance, image.value, k, h);
    }
    r := (h, true);
  }

  // ---- The entries read so far are the first k of the listing ----

  ghost predicate Parsed(h: Held, k: nat, parsed: Held) {
    k <= |Listing(h)| && EntrySet(parsed) == set e | e in Listing(h)[..k]
  }

  lemma NextEntry(instance: seq<byte>, s: Snapshot, k: nat, parsed: Held)
    requires InstanceFits(instance) && s.Valid() && k < s.held.Count() && Parsed(s.held, k, parsed)
    ensures |Listing(s.held)| == s.held.Count()
    ensures var e := Listing(s.held)[k];
      && ReadEntry(Encode(instance, s), HEADER_SIZE + 8 * k, parsed) == Some(parsed.With(e.kind, e.code))
      && Parsed(s.held, k + 1, parsed.With(e.kind, e.code))
  {
    EntryOfEncoding(instance, s, k);
    ListingEnumerates(s.held);
    ListingBounds(s.held);
    ParsedNext(s.held, k, parsed);
  }

  lemma ParsedNext(h: Held, k: nat, parsed: Held)
    requires Enumerates(Listing(h), EntrySet(h)) && k < |Listing(h)| && Parsed(h, k, parsed)
    requires ValidKind(Listing(h)[k].kind)
    ensures Listing(h)[k].code !in parsed.Of(Listing(h)[k].kind)
    ensures Parsed(h, k + 1, parsed.With(Listing(h)[k].kind, Listing(h)[k].code))
  {
    var (es, e) := (Listing(h), Listing(h)[k]);
    assert e !in es[..k];
    assert e.code in parsed.Of(e.kind) <==> e in EntrySet(parsed);
    assert EntrySet(parsed.With(e.kind, e.code)) == EntrySet(parsed) + {e};
    assert es[..k + 1] == es[..k] + [e];
  }

  lemma WholeListing(instance: seq<byte>, s: Snapshot, k: nat, parsed: Held)
    requires InstanceFits(instance) && s.Valid() && Parsed(s.held, k, parsed)
    requires HEADER_SIZE + 8 * k + 4 == |Encode(instance, s)|
    ensures parsed == s.held
  {
    ListingEnumerates(s.held);
    assert Listing(s.held)[..k] == Listing(s.held);
    HeldFromEntries(parsed, s.held);
  }
}
