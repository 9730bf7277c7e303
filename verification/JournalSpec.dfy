// What each operation of the recovery journal does, as a function of the object, the
// directory and the outcome of its disk operations.
module JournalSpec {
  import opened Options
  import opened Words
  import opened Codec

  // The volatile object.
  datatype Memory = Memory(attempted: bool, ready: bool, poisoned: bool, held: Held, pid: int, ticks: seq<byte>)
  {
    function Image(): Snapshot { Snapshot(held, poisoned, pid, ticks) }

    // Only a ready object is known to be meaningful.
    predicate Sound() { ready ==> Image().Valid() }

    predicate HasPending() { !ready || poisoned || !held.Empty() }

    function Failed(): Memory { this.(ready := false) }
  }

  const BLANK: Memory := Memory(false, false, false, Held({}, {}, {}), 0, [])

  // The directory: the entries a running process sees, and those a crash may leave.
  datatype Store = Store(main: Option<seq<byte>>, mains: set<Option<seq<byte>>>, poison: bool, poisons: set<bool>)

  // How far persist() came: the old file is untouched, the new one is in place but may not
  // survive a crash, or the new one is certain.
  datatype Outcome = Kept | Renamed | Durable

  // How far the poison marker came.
  datatype Marking = NoMarker | Marked | MarkerDurable

  datatype PressResult = PressFailed | AlreadyPending | Fresh

  // "i1-" and at least one lower-case hexadecimal digit.
  predicate ValidInstance(id: seq<byte>) {
    && 4 <= |id| <= 131
    && id[..3] == [0x69, 0x31, 0x2d]
    && forall i :: 3 <= i < |id| ==> 0x30 <= id[i] <= 0x39 || 0x61 <= id[i] <= 0x66
  }

  // "i1-", and then 1 to 128 digits or letters from a to f.
  lemma InstanceMeans(id: seq<byte>)
    ensures ValidInstance(id) <==>
      && 4 <= |id| <= 131 && id[0] == 'i' as int && id[1] == '1' as int && id[2] == '-' as int
      && forall i :: 3 <= i < |id| ==> '0' as int <= id[i] <= '9' as int || 'a' as int <= id[i] <= 'f' as int
  {
    if |id| >= 3 { assert id[..3] == [id[0], id[1], id[2]]; }
  }

  // Something is pending unless the object is ready, unpoisoned, and holds no code of any kind.
  lemma PendingMeans(j: Memory)
    ensures j.HasPending() <==>
      !j.ready || j.poisoned || exists code: uint32 ::
        code in j.held.keys || code in j.held.buttons || code in j.held.modifiers
  {
    if !(exists code: uint32 :: code in j.held.keys || code in j.held.buttons || code in j.held.modifiers) {
      assert j.held.keys == {} && j.held.buttons == {} && j.held.modifiers == {};
    }
    if j.held.keys != {} { var c :| c in j.held.keys; }
    if j.held.buttons != {} { var c :| c in j.held.buttons; }
    if j.held.modifiers != {} { var c :| c in j.held.modifiers; }
  }

  function Persist(instance: seq<byte>, s: Snapshot, d: Store, o: Outcome): Store
    requires InstanceFits(instance) && s.Valid()
  {
    var file := Some(Encode(instance, s));
    match o
    case Kept => d
    case Renamed => d.(main := file, mains := d.mains + {file})
    case Durable => Store(file, {file}, d.poison, {d.poison})
  }

  function Prepare(instance: seq<byte>, j: Memory, d: Store, kind: byte, code: uint32, o: Outcome): (Memory, Store,
                   PressResult)
    requires InstanceFits(instance) && j.Sound()
  {
    if !j.ready || j.poisoned then (j, d, PressFailed)
    else if !ValidCode(kind, code) then (j.Failed(), d, PressFailed)
    else if code in j.held.Of(kind) then (j, d, AlreadyPending)
    else if j.held.Count() >= MAX_ENTRIES then (j.Failed(), d, PressFailed)
    else
      var j' := j.(held := j.held.With(kind, code));
      (j'.(ready := o.Durable?), Persist(instance, j'.Image(), d, o), if o.Durable? then Fresh else PressFailed)
  }

  function Release(instance: seq<byte>, j: Memory, d: Store, kind: byte, code: uint32, o: Outcome): (Memory, Store,
                   bool)
    requires InstanceFits(instance) && j.Sound()
  {
    if !j.ready || j.poisoned then (j, d, false)
    else if !ValidKind(kind) then (j.Failed(), d, false)
    else if code !in j.held.Of(kind) then (j, d, true)
    else
      var j' := j.(held := j.held.Without(kind, code));
      var d' := Persist(instance, j'.Image(), d, o);
      if o.Durable? then (j', d', true) else (j.Failed(), d', false)
  }

  function Invalidate(instance: seq<byte>, j: Memory, d: Store, m: Marking, o: Outcome): (Memory, Store, bool)
    requires InstanceFits(instance) && j.Sound()
  {
    if !j.ready then (j, d, false)
    else if j.poisoned then (j, d, true)
    else
      var j' := j.(poisoned := true);
      match m
      case NoMarker => (j'.Failed(), d, false)
      case Marked => (j'.Failed(), d.(poison := true, poisons := d.poisons + {true}), false)
      case MarkerDurable =>
        var d' := Store(d.main, {d.main}, true, {true});
        (j'.(ready := o.Durable?), Persist(instance, j'.Image(), d', o), o.Durable?)
  }

  function BindSource(instance: seq<byte>, j: Memory, d: Store, pid: int, ticks: seq<byte>, o: Outcome): (Memory,
                      Store, bool)
    requires InstanceFits(instance) && j.Sound() && pid < TWO63
  {
    if !j.ready || j.poisoned then (j, d, false)
    else if pid <= 1 || ticks == [] || |ticks| > MAX_TICKS || !Decimal(ticks) then (j.Failed(), d, false)
    else if j.pid == pid && j.ticks == ticks then (j, d, true)
    else if j.HasPending() then (j, d, false)
    else
      var j' := j.(pid := pid, ticks := ticks);
      (j'.(ready := o.Durable?), Persist(instance, j'.Image(), d, o), o.Durable?)
  }

  // available: the directory and the lock file could be opened. synced: both files of an
  // existing journal could be synced. created: how far the first snapshot came.
  datatype Opening = Opening(available: bool, synced: bool, created: Outcome)

  ghost function Open(instance: seq<byte>, j: Memory, d: Store, o: Opening): (Memory, Store, bool)
    requires InstanceFits(instance)
  {
    var failed := j.(attempted := true, ready := false);
    if j.attempted || !ValidInstance(instance) || !o.available then (failed, d, false)
    else if d.main.None? then
      var j' := BLANK.(attempted := true, poisoned := d.poison);
      (j'.(ready := o.created.Durable?), Persist(instance, j'.Image(), d, o.created), o.created.Durable?)
    else
      match Meaning(instance, d.main.value)
      case None => (failed, d, false)
      case Some(s) =>
        if !o.synced then (failed, d, false)
        else (Memory(true, true, s.poisoned || d.poison, s.held, s.pid, s.ticks),
          Store(d.main, {d.main}, d.poison, {d.poison}), true)
  }
}
