// The recovery journal over whole runs: presses, releases, poisoning and restarts in any
// order, with the machine stopping at any disk operation.
module JournalRuns {
  import opened Options
  import opened Words
  import opened Codec
  import opened JournalSpec

  // out: the inputs whose down was forwarded and whose up was not yet witnessed.
  datatype World = World(j: Memory, d: Store, out: set<Entry>)

  datatype Event =
    | Press(kind: byte, code: uint32, o: Outcome)     // record the intent, then forward the down if that is allowed
    | Witness(kind: byte, code: uint32)               // an up was seen to take effect
    | Retire(kind: byte, code: uint32, o: Outcome)    // drop the intent of an input that is no longer out
    | Poison(m: Marking, o: Outcome)
    | Bind(pid: int, ticks: seq<byte>, o: Outcome)
    | Restart(main: Option<seq<byte>>, marked: bool, opening: Opening)   // a crash or an exit, and a new process

  ghost function Initial(): World {
    World(BLANK, Store(None, {None}, false, {false}), {})
  }

  // pendingIntent(): a modifier field may already be recorded; a key or button may not.
  function Forwards(kind: byte, r: PressResult): bool {
    r.Fresh? || (kind == MODIFIER && r.AlreadyPending?)
  }

  ghost function Step(instance: seq<byte>, w: World, e: Event): World
    requires InstanceFits(instance) && w.j.Sound()
  {
    match e
    case Press(kind, code, o) =>
      var (j, d, r) := Prepare(instance, w.j, w.d, kind, code, o);
      World(j, d, if Forwards(kind, r) then w.out + {Entry(kind, code)} else w.out)
    case Witness(kind, code) => w.(out := w.out - {Entry(kind, code)})
    case Retire(kind, code, o) =>
      if Entry(kind, code) in w.out then w else
        var (j, d, _) := Release(instance, w.j, w.d, kind, code, o);
        World(j, d, w.out)
    case Poison(m, o) =>
      var (j, d, _) := Invalidate(instance, w.j, w.d, m, o);
      World(j, d, w.out)
    case Bind(pid, ticks, o) =>
      if pid >= TWO63 then w else
        var (j, d, _) := BindSource(instance, w.j, w.d, pid, ticks, o);
        World(j, d, w.out)
    case Restart(main, marked, o) =>
      if main !in w.d.mains || marked !in w.d.poisons then w else
        var (j, d, _) := Open(instance, BLANK, w.d.(main := main, poison := marked), o);
        World(j, d, w.out)
  }

  // A press is refused only if the journal is poisoned or has failed, perhaps just now, or if
  // the key or button is already recorded; a source only if intents of another are pending.
  lemma PressRefusal(instance: seq<byte>, j: Memory, d: Store, kind: byte, code: uint32, o: Outcome)
    requires InstanceFits(instance) && j.Sound()
    ensures var r := Prepare(instance, j, d, kind, code, o);
      !Forwards(kind, r.2) ==> !r.0.ready || r.0.poisoned || (kind != MODIFIER && code in r.0.held.Of(kind))
  {
    hide Encode;
  }

  // A release that succeeds drops the one entry; it does succeed if the disk obeys.
  lemma ReleaseSucceeds(instance: seq<byte>, j: Memory, d: Store, kind: byte, code: uint32, o: Outcome)
    requires InstanceFits(instance) && j.Sound() && ValidKind(kind)
    ensures var r := Release(instance, j, d, kind, code, o);
      && (j.ready && !j.poisoned && o.Durable? ==> r.2 && r.0.ready && !r.0.poisoned)
      && (r.2 || (r.0.ready && !r.0.poisoned) ==> j.ready && !j.poisoned)
      && r.0.held == if r.2 then j.held.Without(kind, code) else j.held
  {
    hide Encode;
    if code !in j.held.Of(kind) {
      assert j.held.Of(kind) - {code} == j.held.Of(kind);
    }
  }

  // A press that can be recorded is, if the disk obeys; the one new entry is recorded, and the
  // source stays.
  lemma PressSucceeds(instance: seq<byte>, j: Memory, d: Store, kind: byte, code: uint32, o: Outcome)
    requires InstanceFits(instance) && j.Sound()
    ensures var r := Prepare(instance, j, d, kind, code, o);
      && (Forwards(kind, r.2) ==>
            && r.0.ready && !r.0.poisoned && r.0.held == j.held.With(kind, code)
            && r.0.pid == j.pid && r.0.ticks == j.ticks
            && (kind == KEY ==> code !in j.held.keys) && (kind == BUTTON ==> code !in j.held.buttons))
      && (var recordable := ValidCode(kind, code) && (kind == MODIFIER || code !in j.held.Of(kind));
          j.ready && !j.poisoned && recordable && o.Durable? ==> Forwards(kind, r.2))
  {
    hide Encode, Held.Count;
    if j.ready && ValidCode(kind, code) {
      if code in j.held.Of(kind) {
        assert j.held.Of(kind) + {code} == j.held.Of(kind);
      } else {
        EntryLimitUnreachable(j.held, kind, code);
      }
    }
  }

  // A live source: the journal is bound to it, or nothing is pending.
  predicate Bindable(j: Memory, pid: int, ticks: seq<byte>) {
    && 1 < pid < TWO63 && ticks != [] && |ticks| <= MAX_TICKS && Decimal(ticks)
    && (j.HasPending() ==> j.pid == pid && j.ticks == ticks)
  }

  lemma TooLarge(j: Memory, pid: int, ticks: seq<byte>)
    requires pid >= TWO63
    ensures !Bindable(j, pid, ticks)
  {}

  // Such a source can be bound, if the disk obeys, and stays so; nothing else changes.
  lemma BindSucceeds(instance: seq<byte>, j: Memory, d: Store, pid: int, ticks: seq<byte>, o: Outcome)
    requires InstanceFits(instance) && j.Sound() && pid < TWO63
    ensures var r := BindSource(instance, j, d, pid, ticks, o);
      && r.0.held == j.held
      && (r.2 ==>
        r.0.ready && !r.0.poisoned && forall k: Memory ::
          k.pid == r.0.pid && k.ticks == r.0.ticks ==> Bindable(k, pid, ticks))
      && (j.ready && !j.poisoned && Bindable(j, pid, ticks) && o.Durable? ==> r.2)
  {
    hide Encode;
  }

  lemma BindRefusal(instance: seq<byte>, j: Memory, d: Store, pid: int, ticks: seq<byte>, o: Outcome)
    requires InstanceFits(instance) && j.Sound() && pid < TWO63
    ensures var r := BindSource(instance, j, d, pid, ticks, o);
      !r.2 ==> !r.0.ready || r.0.poisoned || (r.0.HasPending() && !(r.0.pid == pid && r.0.ticks == ticks))
  {
    hide Encode;
  }

  // ---- The invariant ----

  // A file found under the snapshot's name accounts for every input that is still out.
  ghost predicate Accounts(instance: seq<byte>, main: Option<seq<byte>>, out: set<Entry>)
    requires InstanceFits(instance)
  {
    match main
    case None => out == {}
    case Some(bytes) =>
      && Meaning(instance, bytes).Some?
      && out <= EntrySet(Meaning(instance, bytes).value.held)
  }

  ghost predicate SaysPoisoned(instance: seq<byte>, main: Option<seq<byte>>)
    requires InstanceFits(instance)
  {
    main.Some? && Meaning(instance, main.value).Some? && Meaning(instance, main.value).value.poisoned
  }

  ghost predicate Inv(instance: seq<byte>, w: World)
    requires InstanceFits(instance)
  {
    && w.d.main in w.d.mains && w.d.poison in w.d.poisons
    && (forall m <- w.d.mains :: Accounts(instance, m, w.out))
    && (w.j.ready ==> Faithful(instance, w.j, w.d))
  }

  // A ready object mirrors the one file that any crash would leave.
  ghost predicate Faithful(instance: seq<byte>, j: Memory, d: Store)
    requires InstanceFits(instance)
  {
    && j.Image().Valid() && d.mains == {d.main} && d.main.Some?
    && d.poisons == {d.poison} && j.poisoned == (d.poison || SaysPoisoned(instance, d.main))
    && Meaning(instance, d.main.value).Some?
    && Meaning(instance, d.main.value).value.held == j.held
    && (!j.poisoned ==> Meaning(instance, d.main.value) == Some(j.Image()))
  }

  lemma StepKeepsInv(instance: seq<byte>, w: World, e: Event)
    requires InstanceFits(instance) && Inv(instance, w)
    ensures w.j.Sound() && Inv(instance, Step(instance, w, e))
  {
    match e
    case Press(kind, code, o) => PressKeepsInv(instance, w, kind, code, o);
    case Witness(kind, code) => WitnessKeepsInv(instance, w, kind, code);
    case Retire(kind, code, o) => RetireKeepsInv(instance, w, kind, code, o);
    case Poison(m, o) => PoisonKeepsInv(instance, w, m, o);
    case Bind(pid, ticks, o) => BindKeepsInv(instance, w, pid, ticks, o);
    case Restart(main, marked, o) => RestartKeepsInv(instance, w, main, marked, o);
  }

  // Persisting an image that accounts for everything out keeps the invariant's disk part.
  lemma PersistAccounts(instance: seq<byte>, s: Snapshot, d: Store, out: set<Entry>, o: Outcome)
    requires InstanceFits(instance) && s.Valid() && out <= EntrySet(s.held)
    requires d.main in d.mains && d.poison in d.poisons
    requires forall m <- d.mains :: Accounts(instance, m, out)
    ensures var d' := Persist(instance, s, d, o);
      && d'.main in d'.mains && d'.poison in d'.poisons
      && (forall m <- d'.mains :: Accounts(instance, m, out))
      && (o.Durable? ==>
        d'.mains == {d'.main} && d'.main == Some(Encode(instance, s)) && d'.poisons == {d'.poison} == {d.poison})
      && Meaning(instance, Encode(instance, s)) == Some(s)
  {
    hide Encode, EntrySet, Meaning;
    DecodeEncode(instance, s);
  }

  lemma PressKeepsInv(instance: seq<byte>, w: World, kind: byte, code: uint32, o: Outcome)
    requires InstanceFits(instance) && Inv(instance, w)
    ensures w.j.Sound() && Inv(instance, Step(instance, w, Press(kind, code, o)))
  {
    hide Encode, Meaning, Held.Count;
    var (j, d, r) := Prepare(instance, w.j, w.d, kind, code, o);
    if r.AlreadyPending? {
      assert Entry(kind, code) in EntrySet(w.j.held);
    } else if w.j.ready && !w.j.poisoned && ValidCode(kind, code) && code !in w.j.held.Of(kind) {
      var held := w.j.held.With(kind, code);
      assert EntrySet(held) == EntrySet(w.j.held) + {Entry(kind, code)};
      PersistAccounts(instance, w.j.(held := held).Image(), w.d, w.out, o);
    }
  }

  lemma WitnessKeepsInv(instance: seq<byte>, w: World, kind: byte, code: uint32)
    requires InstanceFits(instance) && Inv(instance, w)
    ensures w.j.Sound() && Inv(instance, Step(instance, w, Witness(kind, code)))
  {
    hide Encode, Meaning;
  }

  lemma RetireKeepsInv(instance: seq<byte>, w: World, kind: byte, code: uint32, o: Outcome)
    requires InstanceFits(instance) && Inv(instance, w)
    ensures w.j.Sound() && Inv(instance, Step(instance, w, Retire(kind, code, o)))
  {
    hide Encode, Meaning;
    if w.j.ready && !w.j.poisoned && ValidKind(kind) && code in w.j.held.Of(kind) && Entry(kind, code) !in w.out {
      var held := w.j.held.Without(kind, code);
      assert EntrySet(held) == EntrySet(w.j.held) - {Entry(kind, code)};
      PersistAccounts(instance, w.j.(held := held).Image(), w.d, w.out, o);
    }
  }

  lemma PoisonKeepsInv(instance: seq<byte>, w: World, m: Marking, o: Outcome)
    requires InstanceFits(instance) && Inv(instance, w)
    ensures w.j.Sound() && Inv(instance, Step(instance, w, Poison(m, o)))
  {
    hide Encode, EntrySet, Meaning;
    if w.j.ready && !w.j.poisoned && m.MarkerDurable? {
      var d' := Store(w.d.main, {w.d.main}, true, {true});
      PersistAccounts(instance, w.j.(poisoned := true).Image(), d', w.out, o);
    }
  }

  lemma BindKeepsInv(instance: seq<byte>, w: World, pid: int, ticks: seq<byte>, o: Outcome)
    requires InstanceFits(instance) && Inv(instance, w)
    ensures w.j.Sound() && Inv(instance, Step(instance, w, Bind(pid, ticks, o)))
  {
    hide Encode, Meaning;
    if w.j.ready && !w.j.poisoned && 1 < pid < TWO63 && ticks != [] && |ticks| <= MAX_TICKS && Decimal(ticks)
      && w.j.held.Empty() {
      PersistAccounts(instance, w.j.(pid := pid, ticks := ticks).Image(), w.d, w.out, o);
    }
  }

  lemma RestartKeepsInv(instance: seq<byte>, w: World, main: Option<seq<byte>>, marked: bool, o: Opening)
    requires InstanceFits(instance) && Inv(instance, w)
    ensures w.j.Sound() && Inv(instance, Step(instance, w, Restart(main, marked, o)))
  {
    hide Encode, EntrySet, Meaning;
    if main in w.d.mains && marked in w.d.poisons {
      var d := w.d.(main := main, poison := marked);
      if main.None? && ValidInstance(instance) && o.available {
        FirstSnapshot(instance, w, marked, o.created);
      } else if main.Some? {
        MeaningImage(instance, main.value);
      }
    }
  }

  // A process that finds no snapshot writes an empty one: nothing can be out.
  lemma FirstSnapshot(instance: seq<byte>, w: World, marked: bool, o: Outcome)
    requires InstanceFits(instance) && Inv(instance, w) && None in w.d.mains && marked in w.d.poisons
    ensures var d := w.d.(main := None, poison := marked);
            var s := BLANK.(poisoned := marked).Image();
            var d' := Persist(instance, s, d, o);
      && d'.main in d'.mains && d'.poison in d'.poisons
      && (forall m <- d'.mains :: Accounts(instance, m, w.out))
      && (o.Durable? ==>
        d'.mains == {d'.main} && d'.main == Some(Encode(instance, s)) && d'.poisons == {d'.poison} == {marked})
      && Meaning(instance, Encode(instance, s)) == Some(s)
  {
    hide Encode, EntrySet, Meaning;
    DecodeEncode(instance, BLANK.(poisoned := marked).Image());
  }

  // ---- Runs ----

  ghost function Run(instance: seq<byte>, w: World, es: seq<Event>): World
    requires InstanceFits(instance) && Inv(instance, w)
    ensures Inv(instance, Run(instance, w, es))
    decreases |es|
  {
    if es == [] then w else
      StepKeepsInv(instance, w, es[0]);
      Run(instance, Step(instance, w, es[0]), es[1..])
  }

  lemma InitialInv(instance: seq<byte>)
    requires InstanceFits(instance)
    ensures Inv(instance, Initial())
  {}

  // What a run reaches from an empty directory.
  ghost function Reached(instance: seq<byte>, es: seq<Event>): World
    requires InstanceFits(instance)
  {
    InitialInv(instance);
    Run(instance, Initial(), es)
  }

  // After any run from an empty directory, whatever file a crash leaves decodes, and the next
  // process that opens it holds every input whose up was not witnessed.
  lemma PendingInputsSurvive(instance: seq<byte>, es: seq<Event>, found: Option<seq<byte>>, marked: bool,
                             opening: Opening)
    requires InstanceFits(instance)
    requires var w := Reached(instance, es); found in w.d.mains && marked in w.d.poisons
    ensures var w := Reached(instance, es);
      && Inv(instance, w)
      && (found.None? ==> w.out == {})
      && (found.Some? ==>
        Meaning(instance, found.value).Some? && w.out <= EntrySet(Meaning(instance, found.value).value.held))
      && var next := Step(instance, w, Restart(found, marked, opening));
      && (ValidInstance(instance) && opening == Opening(true, true, Durable) ==> next.j.ready)
      && (next.j.ready ==> w.out <= EntrySet(next.j.held))
  {
    hide Encode, EntrySet, Meaning;
    InitialInv(instance);
    var w := Run(instance, Initial(), es);
    StepKeepsInv(instance, w, Restart(found, marked, opening));
  }

  // The event as it would have gone had no disk operation failed.
  function Completed(e: Event): Event {
    match e
    case Press(kind, code, _) => Press(kind, code, Durable)
    case Witness(kind, code) => e
    case Retire(kind, code, _) => Retire(kind, code, Durable)
    case Poison(_, _) => Poison(MarkerDurable, Durable)
    case Bind(pid, ticks, _) => Bind(pid, ticks, Durable)
    case Restart(main, marked, o) => Restart(main, marked, Opening(true, true, Durable))
  }

  // A crash inside an operation leaves the file from before it or the file from after it.
  lemma CrashIsAtomic(instance: seq<byte>, w: World, e: Event)
    requires InstanceFits(instance) && Inv(instance, w)
    ensures w.j.Sound() && Step(instance, w, e).d.mains <= w.d.mains + Step(instance, w, Completed(e)).d.mains
  {
    hide Encode, Meaning, EntrySet;
  }

  // ---- Poison is permanent ----

  // Every process that could start now would find the journal poisoned.
  ghost predicate Poisoned(instance: seq<byte>, d: Store)
    requires InstanceFits(instance)
  {
    forall m <- d.mains, p <- d.poisons :: p || SaysPoisoned(instance, m)
  }

  ghost predicate IsBlank(instance: seq<byte>, main: Option<seq<byte>>)
    requires InstanceFits(instance)
  {
    main.Some? && Meaning(instance, main.value) == Some(BLANK.(poisoned := true).Image())
  }

  lemma InvalidateIsDurable(instance: seq<byte>, w: World, m: Marking, o: Outcome)
    requires InstanceFits(instance) && Inv(instance, w) && w.j.Sound()
    requires Invalidate(instance, w.j, w.d, m, o).2
    ensures Poisoned(instance, Step(instance, w, Poison(m, o)).d)
  {
    hide Encode, EntrySet, Meaning;
  }

  lemma PoisonedStep(instance: seq<byte>, w: World, e: Event)
    requires InstanceFits(instance) && Inv(instance, w) && Poisoned(instance, w.d)
    ensures w.j.Sound()
    ensures var w' := Step(instance, w, e);
      && Poisoned(instance, w'.d) && w'.out <= w.out && (w'.j.ready ==> w'.j.poisoned)
      && (forall m <- w'.d.mains :: m in w.d.mains || (None in w.d.mains && IsBlank(instance, m)))
  {
    hide Encode, EntrySet, Meaning;
    StepKeepsInv(instance, w, e);
    match e
    case Restart(main, marked, o) =>
      if main.None? && main in w.d.mains && marked in w.d.poisons {
        assert marked || SaysPoisoned(instance, main);
        FirstSnapshot(instance, w, marked, o.created);
      }
    case _ =>
  }

  // Once invalidate() has returned true, no later process is ready without being poisoned, no
  // down is forwarded again, and no recorded intent is dropped: every file that can be found
  // was already there, or is the empty poisoned one written where there was none.
  lemma {:induction false} PoisonIsPermanent(instance: seq<byte>, w: World, es: seq<Event>)
    requires InstanceFits(instance) && Inv(instance, w) && Poisoned(instance, w.d)
    ensures var w' := Run(instance, w, es);
      && Poisoned(instance, w'.d) && (w'.j.ready ==> w'.j.poisoned) && w'.out <= w.out
      && (forall m <- w'.d.mains :: m in w.d.mains || (None in w.d.mains && IsBlank(instance, m)))
    decreases |es|
  {
    hide Encode, EntrySet, Meaning, Inv, Step, Poisoned;
    if es != [] {
      PoisonedStep(instance, w, es[0]);
      StepKeepsInv(instance, w, es[0]);
      var next := Step(instance, w, es[0]);
      PoisonIsPermanent(instance, next, es[1..]);
    } else {
      assert w.j.ready ==> w.j.poisoned by { ReadyIsPoisoned(instance, w); }
    }
  }

  lemma ReadyIsPoisoned(instance: seq<byte>, w: World)
    requires InstanceFits(instance) && Inv(instance, w) && Poisoned(instance, w.d)
    ensures w.j.ready ==> w.j.poisoned
  {
    hide Meaning;
  }

  // A journal object that failed stays failed: only a new process opens a new one.
  lemma {:induction false} FailedStaysFailed(instance: seq<byte>, w: World, es: seq<Event>)
    requires InstanceFits(instance) && Inv(instance, w) && !w.j.ready
    requires forall e <- es :: !e.Restart?
    ensures !Run(instance, w, es).j.ready && Run(instance, w, es).d == w.d
    decreases |es|
  {
    hide Encode, Meaning, Inv;
    if es != [] {
      assert es[0] in es;
      StepKeepsInv(instance, w, es[0]);
      FailedStaysFailed(instance, Step(instance, w, es[0]), es[1..]);
    }
  }
}
