// The compositor plugin: struct State of scope-plugin.cpp. Leases, the ledgers of owned keys,
// buttons and modifiers, their release, and the owners that may recover them.
module Scope {
  import opened Options
  import opened Words
  import opened Codec
  import opened JournalSpec
  import opened JournalRuns
  import opened Owners
  import opened Seat
  import opened History
  import opened Deadline

  // A virtual device an authenticated guardian created.
  datatype Resource = Resource(pid: nat, client: nat, dead: bool)

  datatype Peer = Peer(proc: Proc, uid: nat)

  // The receipt of the last tagged release_all; completed is 0 while it is being executed.
  datatype Receipt = Receipt(proc: Proc, command: string, completed: int, acknowledged: bool)

  // What a tagged cleanup ended with: its acknowledgement, and whether anything was still out.
  datatype Completion = Completion(acknowledged: bool, leftOut: bool)

  // The guardian's tag on a cleanup: a command id of 48 hexadecimal digits and its start ticks.
  datatype Tag = Tag(command: string, start: nat)

  predicate HexDigit(c: char) { '0' <= c <= '9' || 'a' <= c <= 'f' || 'A' <= c <= 'F' }

  predicate ReleaseCommandID(command: string) { |command| == 48 && forall c <- command :: HexDigit(c) }

  // 48 hexadecimal digits, by their codes.
  ghost predicate CommandID(command: string) {
    |command| == 48 && forall i :: 0 <= i < 48 ==>
      48 <= command[i] as int <= 57 || 97 <= command[i] as int <= 102 || 65 <= command[i] as int <= 70
  }

  lemma CommandIDMeans(command: string)
    ensures ReleaseCommandID(command) <==> CommandID(command)
  {
    if ReleaseCommandID(command) {
      forall i | 0 <= i < 48
        ensures 48 <= command[i] as int <= 57 || 97 <= command[i] as int <= 102 || 65 <= command[i] as int <= 70
      {
        assert command[i] in command;
      }
    }
  }

  // The fields of a reply that a cleanup relies on.
  datatype Reply = Reply(ok: bool, armed: bool, keys: nat, buttons: nat, acknowledged: bool)

  const RECEIPT_LIFETIME: int := 500_000_000

  // A down that was forwarded: when, and under which deadline and lease.
  datatype Admission = Admission(time: int, deadline: int, granted: int, absolute: int)

  predicate InTime(a: Admission) {
    a.granted <= a.time < a.deadline <= a.absolute && a.deadline <= a.granted + MAXIMUM
  }

  // The active owner's account against the plugin's state.
  predicate AccountOk(o: Owner, armed: bool, failed: bool, ledgersEmpty: bool) {
    && (armed ==> !o.Lost() && !o.empty)
    && (o.empty ==> ledgersEmpty)
    && (o.ack ==> o.empty)
    && (o.unknown ==> failed)
    && (o.reconciled ==> o.revoked && (failed || ledgersEmpty))
  }

  predicate Clean(o: Owner, keyboard: Option<nat>, pointer: Option<nat>) {
    o.empty && o.ack && !o.Lost() && !o.reconciled && o.keyboard == keyboard && o.pointer == pointer
  }

  // Everything that can happen to the plugin, in any order.
  datatype Action =
    | KeyEvent(device: nat, code: uint32, down: bool, view: bool)
    | ModifierEvent(device: nat, fields: set<uint32>, view: bool)
    | ButtonEvent(device: nat, code: uint32, down: bool, view: bool, target: bool)
    | ArmRequest(fd: nat, absolute: int, leaseMs: int, snapshot: nat, k: nat, p: nat, view: bool, onOutput: bool,
      unclear: bool, nonce: nat)
    | RenewRequest(fd: nat, absolute: int, leaseMs: int, snapshot: nat, view: bool)
    | ReleaseRequest(view: bool)
    | TaggedReleaseRequest(fd: nat, tag: Tag, view: bool)
    | CaptureRequest(fd: nat, guardian: Proc, uid: nat, identified: bool, nonce: nat, capability: nat)
    | ReconnectRequest(fd: nat, id: nat, claim: Claim, available: bool)
    | ReconcileRequest(fd: nat, id: nat, command: string, retire: bool)
    | RecoveryRequest(source: Option<nat>, usable: bool)
    | Lapse                                     // a watchdog, focus or topology change revokes
    | Connected(fd: nat, peer: Peer)
    | Disconnected(fd: nat)
    | DeviceCreated(device: nat, resource: Resource, isKeyboard: bool)
    | DeviceDestroyed(device: nat, isKeyboard: bool)
    | SnapshotTaken(snapshot: nat)
    | ProcessExited(proc: Proc)
    | ProcessSeen(pid: nat, ticks: seq<byte>)
    | TimePassed(t: int)

  // What the ledgers hold, and what the devices hold.
  datatype Owned = Owned(keys: set<uint32>, buttons: set<uint32>, modifiers: bool)

  datatype Seen = Seen(keysDown: set<Hold>, modsDown: set<nat>, held: seq<Hold>)

  predicate Recovers(actions: seq<Action>) { exists a <- actions :: a.RecoveryRequest? }

  // This request grants this lease.
  predicate Grants(a: Action, deadline: int, granted: int, absolute: int) {
    && (a.ArmRequest? || a.RenewRequest?) && a.absolute == absolute
    && deadline == BoundedDeadline(granted, a.absolute, a.leaseMs)
  }

  predicate Granted(actions: seq<Action>, deadline: int, granted: int, absolute: int) {
    exists a <- actions :: Grants(a, deadline, granted, absolute)
  }

  // This process was connected under this descriptor, before or during the run.
  predicate Joined(actions: seq<Action>, peers: map<nat, Peer>, fd: nat, proc: Proc) {
    (fd in peers && peers[fd].proc == proc) || exists a <- actions :: a.Connected? && a.fd == fd && a.peer.proc == proc
  }

  // This process asked for this ledger during the run.
  predicate Asked(actions: seq<Action>, peers: map<nat, Peer>, id: nat, proc: Proc) {
    exists a <- actions :: a.CaptureRequest? && a.nonce == id && Joined(actions, peers, a.fd, proc)
  }

  predicate Commands(actions: seq<Action>, command: string) {
    exists a <- actions :: a.TaggedReleaseRequest? && a.tag.command == command
  }

  class State {
    const instance: seq<byte>
    // Inputs a former process of this plugin admitted and never saw released.
    ghost const orphans: set<Entry>

    // The seat and the processes around the plugin.
    var now: int
    var exited: set<Proc>
    var starts: map<nat, seq<byte>>   // start ticks of the processes there are, by pid
    var peers: map<nat, Peer>
    var keyboards: map<nat, Resource>
    var pointers: map<nat, Resource>
    var keysDown: set<Hold>
    var modsDown: set<nat>
    var held: seq<Hold>          // the aggregate button list
    ghost var erasures: seq<Erasure>   // (a record of the model) what every up took out of it
    var snapshots: map<nat, int> // token and time of measurement

    // The durable journal: its object, its directory, and (a record of the model) the inputs
    // that are out: admitted and not yet seen released.
    var world: World

    // The lease.
    var armed: bool
    var deadline: int
    var token: nat
    var guardianFD: Option<nat>
    var keyboard: Option<nat>
    var pointer: Option<nat>
    ghost var granted: int
    ghost var absolute: int
    ghost var admissions: seq<Admission>

    // The ledgers.
    var keys: set<uint32>
    var buttons: set<uint32>
    var ownedModifiers: bool
    var buttonOwnershipKnown: bool
    var foreignButtonActivity: bool
    var failed: bool

    // The owners.
    var owners: map<nat, Owner>
    var activeOwner: Option<nat>
    ghost var chains: map<nat, Chain>

    // Cleanups: the last tagged one, and for each command id that ever completed whether it
    // left nothing admitted and unreleased.
    var receipt: Option<Receipt>
    ghost var completed: map<string, Completion>

    // ---- The invariant ----

    function LedgersEmpty(): bool
      reads this`keys, this`buttons, this`ownedModifiers
    {
      keys == {} && buttons == {} && !ownedModifiers
    }

    // Whatever a crash leaves on disk accounts for every admitted input.
    ghost predicate JournalOk()
      reads this`world
    {
      InstanceFits(instance) && Inv(instance, world)
    }

    ghost predicate InLedger(e: Entry)
      reads this`keys, this`buttons, this`ownedModifiers
    {
      || (e.kind == KEY && e.code in keys)
      || (e.kind == BUTTON && e.code in buttons)
      || (e.kind == MODIFIER && ownedModifiers)
    }

    // Everything admitted and unreleased is in a ledger, unless it is an orphan.
    ghost predicate LedgerOk()
      reads this`world, this`keys, this`buttons, this`ownedModifiers
    {
      forall e <- world.out :: e in orphans || InLedger(e)
    }

    // What the owned pointer has in the owner-blind list is in the ledger. Exclusive ownership:
    // every entry of the list is the owned pointer's.
    ghost predicate ButtonsOk()
      reads this`held, this`erasures, this`buttons, this`pointer, this`buttonOwnershipKnown,
            this`foreignButtonActivity
    {
      && UpsOk() && (forall h <- held :: pointer == Some(h.device) ==> h.code in buttons)
      && (buttonOwnershipKnown && !foreignButtonActivity ==>
            pointer.Some? && forall h <- held :: h.device == pointer.value)
    }

    // No up of an owned pointer ever took another device's hold.
    ghost predicate UpsOk()
      reads this`erasures
    {
      forall e <- erasures :: OwnOnly(e)
    }

    // Before the first arm the plugin owns nothing.
    ghost predicate StartOk()
      reads this`activeOwner, this`armed, this`keys, this`buttons, this`ownedModifiers, this`keyboard, this`pointer,
            this`buttonOwnershipKnown
    {
      activeOwner.None? ==> LedgersEmpty() && !armed && keyboard.None? && pointer.None? && !buttonOwnershipKnown
    }

    ghost predicate OwnersOk()
      reads this`owners, this`activeOwner, this`armed, this`failed, this`keys, this`buttons, this`ownedModifiers,
            this`keyboard, this`pointer
    {
      && (activeOwner.Some? ==>
            && activeOwner.value in owners
            && keyboard.Some? && pointer.Some?
            && AccountOk(owners[activeOwner.value], armed, failed, LedgersEmpty()))
      && OwnersSane()
    }

    ghost predicate OwnersSane()
      reads this`owners
    {
      Sane(owners)
    }

    ghost predicate ChainsOk()
      reads this`owners, this`chains, this`exited
    {
      AllChained(owners, chains, exited)
    }

    ghost predicate LeaseOk()
      reads this`now, this`armed, this`deadline, this`granted, this`absolute, this`admissions
    {
      && (armed ==> granted <= now && deadline <= absolute && deadline <= granted + MAXIMUM)
      && (forall a <- admissions :: InTime(a))
    }

    // A receipt stands for a completed cleanup, and an acknowledged cleanup left nothing out.
    ghost predicate ReceiptOk()
      reads this`receipt, this`completed
    {
      && (receipt.Some? && receipt.value.completed > 0 ==>
            && receipt.value.command in completed
            && completed[receipt.value.command].acknowledged == receipt.value.acknowledged)
      && (forall c :: c in completed && completed[c].acknowledged ==> !completed[c].leftOut)
    }

    ghost predicate DevicesOk()
      reads this`keyboard, this`keyboards, this`pointer, this`pointers
    {
      && (keyboard.Some? ==> keyboard.value in keyboards)
      && (pointer.Some? ==> pointer.value in pointers)
    }

    ghost predicate Valid()
      reads this`now, this`world, this`armed, this`deadline, this`granted, this`absolute, this`admissions, this`keys,
            this`buttons, this`ownedModifiers, this`buttonOwnershipKnown, this`foreignButtonActivity, this`failed,
            this`held, this`erasures, this`keyboard, this`pointer, this`keyboards, this`pointers, this`exited,
            this`owners, this`activeOwner, this`chains, this`receipt, this`completed
    {
      && DevicesOk() && JournalOk() && LedgerOk() && ButtonsOk() && StartOk() && OwnersOk() && ChainsOk() && LeaseOk()
        && ReceiptOk()
    }

    // Why a press that is in scope may still be refused: its intent was not recorded, because
    // the journal is poisoned or has failed, the same press is already recorded, or intents of
    // another process are pending.
    ghost predicate Unrecordable(kind: byte, code: uint32)
      reads this`world, this`keyboard, this`keyboards, this`starts
    {
      || keyboard.None? || keyboard.value !in keyboards || !world.j.ready || world.j.poisoned
      || (kind != MODIFIER && code in world.j.held.Of(kind))
      || var pid := keyboards[keyboard.value].pid;
        pid >= TWO63 || (world.j.HasPending() && !(world.j.pid == pid && world.j.ticks == StartOf(pid)))
    }

    // processStartTicks(): nothing, if the process is gone.
    function StartOf(pid: nat): seq<byte>
      reads this`starts
    {
      if pid in starts then starts[pid] else []
    }

    twostate predicate OwnersKept()
      reads this`owners
    {
      AllAdvance(old(owners), owners)
    }

    twostate predicate HoldsKept()
      reads this`held, this`erasures
    {
      Accounted(old(held), old(erasures), held, erasures, false)
    }

    ghost function Now(): Past
      reads this`owners, this`chains, this`held, this`erasures
    {
      Past(owners, chains, held, erasures)
    }

    // No account went back, no chain was replaced and none was opened, and every hold that is
    // gone was taken by an up on record, none of them a recovery's.
    twostate predicate Kept()
      reads this`owners, this`chains, this`held, this`erasures
    {
      Follows(old(Now()), Now(), false, iset{})
    }

    // ---- The journal ----

    predicate JournalUp()
      reads this`world
    {
      world.j.ready && !world.j.poisoned
    }

    // A journal that is poisoned or has failed stays so.
    twostate predicate NotRevived()
      reads this`world
    {
      JournalUp() ==> old(JournalUp())
    }

    // recovery.release(): only for an input that is no longer out. obey: the disk keeps up.
    method Retire(kind: byte, code: uint32, obey: bool) returns (ok: bool)
      requires JournalOk() && Entry(kind, code) !in world.out && ValidKind(kind)
      modifies this`world
      ensures JournalOk()
      ensures world.out == old(world.out) && NotRevived() && (ok ==> old(JournalUp()))
      ensures obey && old(JournalUp()) ==> ok && JournalUp()
      ensures world.j.held == if ok then old(world.j.held).Without(kind, code) else old(world.j.held)
    {
      hide Inv, Release;
      var o: Outcome := *;
      if obey { o := Durable; }
      RetireKeepsInv(instance, world, kind, code, o);
      ReleaseSucceeds(instance, world.j, world.d, kind, code, o);
      var r := Release(instance, world.j, world.d, kind, code, o);
      world, ok := World(r.0, r.1, world.out), r.2;
    }

    // Pending intents are poisoned, or the journal fails over it; none is dropped.
    twostate predicate Poisons()
      reads this`world
    {
      if old(world.j.ready && world.j.HasPending())
      then (!world.j.ready || world.j.poisoned) && world.j.held == old(world.j.held) && world.out == old(world.out)
      else world == old(world)
    }

    // foreignInput(): any other device's activity while intents are pending poisons them.
    method ForeignInput()
      requires JournalOk()
      modifies this`world
      ensures JournalOk() && Poisons()
      ensures world.out == old(world.out)
    {
      hide Inv, Encode;
      if world.j.ready && world.j.HasPending() {
        var m: Marking := *;
        var o: Outcome := *;
        PoisonKeepsInv(instance, world, m, o);
        var r := Invalidate(instance, world.j, world.d, m, o);
        world := World(r.0, r.1, world.out);
      }
    }

    // The journal works, and is bound to the owned keyboard's process or may be.
    ghost predicate SourceOk()
      reads this`world, this`keyboard, this`keyboards, this`starts
    {
      && JournalUp() && keyboard.Some? && keyboard.value in keyboards
      && var pid := keyboards[keyboard.value].pid;
        Bindable(world.j, pid, StartOf(pid))
    }

    // An intent that is recorded if the disk keeps up.
    ghost predicate Recordable(kind: byte, code: uint32)
      reads this`world, this`keyboard, this`keyboards, this`starts
    {
      SourceOk() && ValidCode(kind, code) && (kind == MODIFIER || code !in world.j.held.Of(kind))
    }

    // pendingIntent(): the intent is durable before the down is admitted. obey: the disk keeps up.
    method PendingIntent(kind: byte, code: uint32, obey: bool) returns (ok: bool)
      requires JournalOk() && (keyboard.Some? ==> keyboard.value in keyboards)
      modifies this`world
      ensures JournalOk()
      ensures world.out == if ok then old(world.out) + {Entry(kind, code)} else old(world.out)
      ensures !ok ==> Unrecordable(kind, code)
      ensures ok ==> JournalUp() && world.j.held == old(world.j.held).With(kind, code)
      ensures ok && kind == KEY ==> code !in old(world.j.held.keys)
      ensures ok && kind == BUTTON ==> code !in old(world.j.held.buttons)
      ensures obey && old(Recordable(kind, code)) ==> ok && SourceOk()
    {
      hide Inv, BindSource, Prepare, Memory.HasPending, Bindable;
      if !world.j.ready || world.j.poisoned || keyboard.None? {
        return false;
      }
      var pid := keyboards[keyboard.value].pid;
      var ticks := StartOf(pid);
      if pid >= TWO63 {
        TooLarge(world.j, pid, ticks);
        return false;
      }
      var o: Outcome := *;
      if obey { o := Durable; }
      BindKeepsInv(instance, world, pid, ticks, o);
      var bound := BindSource(instance, world.j, world.d, pid, ticks, o);
      BindRefusal(instance, world.j, world.d, pid, ticks, o);
      BindSucceeds(instance, world.j, world.d, pid, ticks, o);
      world := World(bound.0, bound.1, world.out);
      if !bound.2 {
        return false;
      }
      o := *;
      if obey { o := Durable; }
      PressKeepsInv(instance, world, kind, code, o);
      var r := Prepare(instance, world.j, world.d, kind, code, o);
      PressRefusal(instance, world.j, world.d, kind, code, o);
      PressSucceeds(instance, world.j, world.d, kind, code, o);
      world, ok := World(r.0, r.1, world.out), Forwards(kind, r.2);
      if ok {
        world := world.(out := world.out + {Entry(kind, code)});
      }
    }

    // An up was witnessed: the input is no longer out.
    method Witnessed(kind: byte, code: uint32)
      requires JournalOk()
      modifies this`world
      ensures JournalOk() && world.out == old(world.out) - {Entry(kind, code)} && world.j == old(world.j)
    {
      hide Inv;
      WitnessKeepsInv(instance, world, kind, code);
      world := world.(out := world.out - {Entry(kind, code)});
    }

    method WitnessedModifiers()
      requires JournalOk()
      modifies this`world
      ensures JournalOk() && world.out == (set e <- old(world.out) | e.kind != MODIFIER) && world.j == old(world.j)
    {
      hide Inv;
      var kept := set e <- world.out | e.kind != MODIFIER;
      while world.out - kept != {}
        invariant JournalOk() && kept <= world.out <= old(world.out) && world.j == old(world.j)
        decreases world.out
      {
        var e :| e in world.out - kept;
        Witnessed(e.kind, e.code);
      }
      assert forall e <- world.out :: e in kept || e in world.out - kept;
    }

    // finishKeyRelease(), finishButtonRelease() and finishModifierRelease(): a ledger entry is
    // dropped only after its up was delivered and its intent retired.
    method FinishKeyRelease(code: uint32, delivered: bool, obey: bool) returns (ok: bool)
      requires JournalOk() && LedgerOk() && (delivered ==> Entry(KEY, code) !in world.out)
      modifies this`world, this`keys
      ensures JournalOk() && LedgerOk()
      ensures world.out == old(world.out) && NotRevived()
      ensures ok ==> delivered && old(JournalUp())
      ensures keys == if ok then old(keys) - {code} else old(keys)
      ensures delivered && obey && old(JournalUp()) ==> ok && JournalUp()
      ensures world.j.held == if ok then old(world.j.held).Without(KEY, code) else old(world.j.held)
    {
      hide Inv;
      if !delivered {
        return false;
      }
      ok := Retire(KEY, code, obey);
      if ok { keys := keys - {code}; }
    }

    method FinishButtonRelease(code: uint32, delivered: bool, obey: bool) returns (ok: bool)
      requires JournalOk() && LedgerOk() && (delivered ==> Entry(BUTTON, code) !in world.out)
      modifies this`world, this`buttons
      ensures JournalOk() && LedgerOk()
      ensures world.out == old(world.out) && NotRevived()
      ensures ok ==> delivered && old(JournalUp())
      ensures buttons == if ok then old(buttons) - {code} else old(buttons)
      ensures delivered && obey && old(JournalUp()) ==> ok && JournalUp()
      ensures world.j.held == if ok then old(world.j.held).Without(BUTTON, code) else old(world.j.held)
    {
      hide Inv;
      if !delivered {
        return false;
      }
      ok := Retire(BUTTON, code, obey);
      if ok { buttons := buttons - {code}; }
    }

    method FinishModifierRelease(obey: bool) returns (ok: bool)
      requires JournalOk() && LedgerOk() && (forall e <- world.out :: e.kind != MODIFIER)
      modifies this`world, this`ownedModifiers
      ensures JournalOk() && LedgerOk()
      ensures world.out == old(world.out) && NotRevived()
      ensures ok && old(world.j.held.modifiers) != {} ==> old(JournalUp())
      ensures obey && old(world.j.held.modifiers) == {} ==> ok
      ensures ownedModifiers == (old(ownedModifiers) && !ok)
      ensures obey && old(JournalUp()) ==> ok && JournalUp()
      ensures ok ==> world.j.held == old(world.j.held).(modifiers := {})
    {
      hide Inv;
      var fields := world.j.held.modifiers;
      while fields != {}
        invariant JournalOk() && LedgerOk() && ownedModifiers == old(ownedModifiers) && world.out == old(world.out)
        invariant obey && old(JournalUp()) ==> JournalUp()
        invariant NotRevived() && (fields == old(world.j.held.modifiers) || old(JournalUp()))
        invariant world.j.held == old(world.j.held).(modifiers := fields)
      {
        var field :| field in fields;
        fields := fields - {field};
        ok := Retire(MODIFIER, field, obey);
        if !ok {
          return;
        }
      }
      ownedModifiers := false;
      ok := true;
    }

    // ---- The aggregate button list ----

    // onMouseButton() with a release from the owned pointer. The compositor erases every entry
    // with this code, so all of them must be the owned pointer's own.
    method DispatchOwnedUp(code: uint32)
      requires pointer.Some? && UpsOk() && forall h <- held :: h.code == code ==> h.device == pointer.value
      modifies this`held, this`erasures
      ensures UpsOk() && HoldsKept()
      ensures erasures == old(erasures) + [Taken(OwnedUp(pointer.value), old(held), code)]
      ensures forall h :: h in held <==> h in old(held) && h.code != code
      ensures forall h <- old(held) :: h.device != pointer.value ==> h in held
    {
      hide Accounted, Erased;
      UpTakes(held, erasures, code, OwnedUp(pointer.value));
      held, erasures := Erased(held, code), erasures + [Taken(OwnedUp(pointer.value), held, code)];
    }

    // A button event of a device that is not the owned pointer.
    method ForeignButton(device: nat, code: uint32, down: bool)
      requires JournalOk() && ButtonsOk() && pointer != Some(device)
      modifies this`world, this`foreignButtonActivity, this`held, this`erasures
      ensures JournalOk() && ButtonsOk() && HoldsKept()
      ensures world.out == old(world.out) && Poisons()
      ensures foreignButtonActivity == (old(foreignButtonActivity) || buttonOwnershipKnown)
      ensures held == Input(old(held), code, device, down)
      ensures erasures == old(erasures) + if down then [] else [Taken(ForeignUp(device), old(held), code)]
    {
      hide Inv, Accounted, Erased;
      ForeignInput();
      if buttonOwnershipKnown { foreignButtonActivity := true; }
      if down {
        NothingTaken(held, erasures, Input(held, code, device, down));
      } else {
        UpTakes(held, erasures, code, ForeignUp(device));
        erasures := erasures + [Taken(ForeignUp(device), held, code)];
      }
      held := Input(held, code, device, down);
    }

    // Any number of foreign button events, at a point where the plugin dispatches an event; none,
    // if everything obeys.
    method Interference(obey: bool)
      requires JournalOk() && ButtonsOk()
      modifies this`world, this`foreignButtonActivity, this`held, this`erasures
      ensures JournalOk() && ButtonsOk() && HoldsKept()
      ensures world.out == old(world.out) && world.j.held == old(world.j.held) && NotRevived()
      ensures old(foreignButtonActivity) ==> foreignButtonActivity
      ensures obey ==> world == old(world) && foreignButtonActivity == old(foreignButtonActivity) && held == old(held)
    {
      hide Inv, Accounted, Input;
      var events: int :| obey ==> events <= 0;
      var i := 0;
      NothingTaken(held, erasures, held);
      while i < events
        invariant JournalOk() && ButtonsOk() && HoldsKept() && world.out == old(world.out)
        invariant world.j.held == old(world.j.held) && NotRevived()
        invariant obey ==>
          world == old(world) && foreignButtonActivity == old(foreignButtonActivity) && held == old(held)
        invariant old(foreignButtonActivity) ==> foreignButtonActivity
      {
        var device: int := *;
        var code: uint32 :| true;
        var down: bool := *;
        if pointer != Some(device) && device >= 0 {
          ghost var before, es := held, erasures;
          ForeignButton(device, code, down);
          AccountedOn(old(held), old(erasures), before, es, held, erasures, false);
        }
        i := i + 1;
      }
    }

    // ---- revoke() ----

    // Does another keyboard hold something the drain would release, or are the buttons no
    // longer known to be exclusively owned?
    function Overlap(): bool
      reads this`keys, this`buttons, this`ownedModifiers, this`keysDown, this`keyboard, this`buttonOwnershipKnown,
            this`foreignButtonActivity
    {
      || (buttons != {} && (!buttonOwnershipKnown || foreignButtonActivity))
      || (exists h <- keysDown :: keyboard != Some(h.device) && (h.code in keys || ownedModifiers))
    }

    // The up of one owned key.
    method DrainKey(key: uint32, obey: bool) returns (ok: bool)
      requires JournalOk() && LedgerOk()
      modifies this`world, this`keys, this`keysDown
      ensures JournalOk() && LedgerOk() && world.out <= old(world.out)
      ensures keys == if ok then old(keys) - {key} else old(keys)
      ensures keysDown <= old(keysDown) && forall h <- old(keysDown) :: h.code != key ==> h in keysDown
      ensures world.j.held.modifiers == old(world.j.held.modifiers) && NotRevived() && (ok ==> old(JournalUp()))
      ensures forall h <- old(keysDown) :: keyboard != Some(h.device) ==> h in keysDown
      ensures obey && keyboard.Some? ==> Hold(key, keyboard.value) !in keysDown
      ensures obey && keyboard.Some? && old(JournalUp()) ==> ok && JournalUp()
    {
      hide Inv;
      ok := false;
      var thrown: bool :| obey ==> !thrown;
      var stuck: bool :| obey ==> !stuck;
      var accepted: bool :| obey ==> accepted;
      if keyboard.None? || thrown {
        return;
      }
      if !stuck { keysDown := keysDown - {Hold(key, keyboard.value)}; }
      if accepted { Witnessed(KEY, key); }
      if Hold(key, keyboard.value) in keysDown {
        return;
      }
      ok := FinishKeyRelease(key, accepted, obey);
    }

    // obey: nothing interferes, nothing is thrown, the compositor delivers every release, and the
    // disk keeps up.
    method DrainKeys(obey: bool) returns (bad: bool)
      requires JournalOk() && LedgerOk() && ButtonsOk()
      modifies this`world, this`keys, this`keysDown, this`held, this`erasures, this`foreignButtonActivity
      ensures JournalOk() && LedgerOk() && ButtonsOk() && HoldsKept()
      ensures keys <= old(keys) && world.out <= old(world.out)
      ensures !bad ==> keys == {}
      ensures forall h <- keysDown :: h in old(keysDown)
      ensures forall h <- old(keysDown) :: keyboard != Some(h.device) ==> h in keysDown
      ensures forall h <- old(keysDown) :: h.code !in old(keys) ==> h in keysDown
      ensures world.j.held.modifiers == old(world.j.held.modifiers) && NotRevived()
      ensures if old(keys) == {} then !bad && world == old(world) else !bad ==> old(JournalUp())
      ensures old(foreignButtonActivity) ==> foreignButtonActivity
      ensures obey ==> foreignButtonActivity == old(foreignButtonActivity) && held == old(held)
      ensures obey && keyboard.Some? && old(JournalUp()) ==> !bad && JournalUp()
      ensures obey && keyboard.Some? ==> forall k <- old(keys) :: Hold(k, keyboard.value) !in keysDown
    {
      hide Inv, Accounted;
      NothingTaken(held, erasures, held);
      var pending := keys;
      bad := false;
      while pending != {}
        invariant JournalOk() && LedgerOk() && ButtonsOk() && HoldsKept()
        invariant keys <= old(keys) && world.out <= old(world.out) && (!bad ==> keys <= pending)
        invariant forall h <- keysDown :: h in old(keysDown)
        invariant forall h <- old(keysDown) :: keyboard != Some(h.device) ==> h in keysDown
        invariant forall h <- old(keysDown) :: h.code !in old(keys) ==> h in keysDown
        invariant world.j.held.modifiers == old(world.j.held.modifiers) && NotRevived()
        invariant pending <= old(keys) && (old(keys) == {} ==> !bad && world == old(world))
        invariant !bad && pending != old(keys) ==> old(JournalUp())
        invariant old(foreignButtonActivity) ==> foreignButtonActivity
        invariant obey ==> foreignButtonActivity == old(foreignButtonActivity) && held == old(held)
        invariant obey && keyboard.Some? && old(JournalUp()) ==> !bad && JournalUp()
        invariant obey && keyboard.Some? ==>
          forall k <- old(keys) :: k in pending || Hold(k, keyboard.value) !in keysDown
      {
        var key :| key in pending;
        pending := pending - {key};
        ghost var before, es := held, erasures;
        Interference(obey);
        AccountedOn(old(held), old(erasures), before, es, held, erasures, false);
        var released := DrainKey(key, obey);
        if !released { bad := true; }
      }
    }

    method DrainModifiers(obey: bool) returns (bad: bool)
      requires JournalOk() && LedgerOk() && ButtonsOk()
      modifies this`world, this`ownedModifiers, this`modsDown, this`held, this`erasures, this`foreignButtonActivity
      ensures JournalOk() && LedgerOk() && ButtonsOk() && HoldsKept()
      ensures world.out <= old(world.out) && (ownedModifiers ==> old(ownedModifiers)) && modsDown <= old(modsDown)
      ensures !bad && keyboard.Some? ==> !ownedModifiers
      ensures !old(ownedModifiers) ==> !bad && modsDown == old(modsDown) && world == old(world)
      ensures keyboard.Some? && !bad && old(ownedModifiers && world.j.held.modifiers != {}) ==> old(JournalUp())
      ensures obey && old(world.j.held.modifiers) == {} ==> !bad
      ensures NotRevived()
      ensures old(foreignButtonActivity) ==> foreignButtonActivity
      ensures obey ==> foreignButtonActivity == old(foreignButtonActivity) && held == old(held)
      ensures obey && keyboard.Some? && old(JournalUp()) ==> !bad && JournalUp()
      ensures obey && keyboard.Some? && old(ownedModifiers) ==> keyboard.value !in modsDown
    {
      hide Inv, Accounted;
      NothingTaken(held, erasures, held);
      bad := false;
      if !ownedModifiers || keyboard.None? {
        return;
      }
      Interference(obey);
      var thrown: bool :| obey ==> !thrown;
      var enabled: bool :| obey ==> enabled;
      if thrown || !enabled {
        return true;
      }
      modsDown := modsDown - {keyboard.value};
      WitnessedModifiers();
      var ok := FinishModifierRelease(obey);
      bad := !ok;
    }

    // The up of an owned button, forwarded under exclusive ownership.
    method ReleaseButton(code: uint32, obey: bool) returns (ok: bool)
      requires JournalOk() && LedgerOk() && ButtonsOk() && pointer.Some?
      requires forall h <- held :: h.code == code ==> h.device == pointer.value
      modifies this`world, this`buttons, this`held, this`erasures
      ensures JournalOk() && LedgerOk() && ButtonsOk() && HoldsKept() && OthersSpared() && Erases(code)
      ensures world.out <= old(world.out) && buttons == if ok then old(buttons) - {code} else old(buttons)
      ensures world.j.held == if ok then old(world.j.held).Without(BUTTON, code) else old(world.j.held)
      ensures NotRevived() && (ok ==> old(JournalUp())) && (obey ==> Entry(BUTTON, code) !in world.out)
      ensures obey && old(JournalUp()) ==> ok && JournalUp()
    {
      hide Inv, Accounted;
      DispatchOwnedUp(code);
      var accepted: bool :| obey ==> accepted;
      if accepted { Witnessed(BUTTON, code); }
      ok := FinishButtonRelease(code, accepted, obey);
    }

    // Every up dispatched here meets DispatchOwnedUp()'s condition, although foreign events may
    // arrive before each of them.
    method DrainButtons(obey: bool) returns (bad: bool)
      requires JournalOk() && LedgerOk() && ButtonsOk() && StartOk()
      modifies this`world, this`buttons, this`held, this`erasures, this`foreignButtonActivity
      ensures JournalOk() && LedgerOk() && ButtonsOk() && StartOk() && HoldsKept()
      ensures buttons <= old(buttons) && world.out <= old(world.out)
      ensures !bad ==> buttons == {}
      ensures NotRevived()
      ensures if old(buttons) == {} then !bad && world == old(world) && held == old(held) else !bad ==> old(JournalUp())
      ensures obey ==> foreignButtonActivity == old(foreignButtonActivity)
      ensures obey ==> OthersSpared()
      ensures obey && old(JournalUp() && OwnsButtons()) ==>
        !bad && JournalUp() && forall h <- held :: h in old(held) && h.code !in old(buttons)
    {
      hide Inv, Accounted;
      NothingTaken(held, erasures, held);
      var pending := buttons;
      bad := false;
      while pending != {}
        invariant JournalOk() && LedgerOk() && ButtonsOk() && HoldsKept()
        invariant buttons <= old(buttons) && world.out <= old(world.out) && (!bad ==> buttons <= pending)
        invariant pending <= old(buttons) && (old(buttons) == {} ==> !bad && world == old(world) && held == old(held))
        invariant NotRevived() && (!bad && pending != old(buttons) ==> old(JournalUp()))
        invariant obey ==> foreignButtonActivity == old(foreignButtonActivity) && OthersSpared()
        invariant obey && old(JournalUp() && OwnsButtons()) ==>
          !bad && JournalUp() && forall h <- held :: h in old(held) && (h.code in old(buttons) ==> h.code in pending)
      {
        var button :| button in pending;
        pending := pending - {button};
        ghost var before, es := held, erasures;
        Interference(obey);
        AccountedOn(old(held), old(erasures), before, es, held, erasures, false);
        if pointer.None? || (activeOwner.Some? && (!buttonOwnershipKnown || foreignButtonActivity)) {
          bad := true;
          continue;
        }
        assert activeOwner.Some?;
        before, es := held, erasures;
        var ok := ReleaseButton(button, obey);
        AccountedOn(old(held), old(erasures), before, es, held, erasures, false);
        if !ok { bad := true; }
      }
    }

    // Nothing changed but the buttons, the intents and the record.
    twostate predicate Beside()
      reads this`armed, this`deadline, this`failed, this`keys, this`ownedModifiers, this`keysDown, this`modsDown,
            this`owners
    {
      && armed == old(armed) && deadline == old(deadline) && failed == old(failed) && keys == old(keys)
      && ownedModifiers == old(ownedModifiers) && keysDown == old(keysDown) && modsDown == old(modsDown)
      && owners == old(owners)
    }

    // No other device lost a hold.
    twostate predicate OthersSpared()
      reads this`held, this`pointer
    {
      forall h <- old(held) :: pointer != Some(h.device) ==> h in held
    }

    // The up of this button was forwarded: the aggregate list loses exactly its entries.
    twostate predicate Erases(code: uint32)
      reads this`held
    {
      forall h :: h in held <==> h in old(held) && h.code != code
    }

    predicate OwnsButtons()
      reads this`pointer, this`buttonOwnershipKnown, this`foreignButtonActivity
    {
      pointer.Some? && buttonOwnershipKnown && !foreignButtonActivity
    }

    function Alive(device: Option<nat>, devices: map<nat, Resource>): bool {
      device.Some? && device.value in devices && !devices[device.value].dead
    }

    // Changes the active owner's flags, and nothing its chain or its past losses rest on.
    method MarkActive(o: Owner)
      requires activeOwner.Some? && activeOwner.value in owners && ChainsOk() && OwnersSane()
      requires var a := owners[activeOwner.value];
               Advances(a, o) && o.recovery == a.recovery && o.adoptions == a.adoptions
                 && (o.reconciled ==> a.reconciled || o.revoked)
      modifies this`owners
      ensures owners == old(owners)[activeOwner.value := o] && OwnersKept() && ChainsOk() && OwnersSane()
    {
      hide Sane, AllChained, AllAdvance, Advances;
      OwnerReplaced(owners, chains, exited, activeOwner.value, o);
      owners := owners[activeOwner.value := o];
    }

    // The drain of revoke(): every owned key, then the modifiers, then every owned button.
    method Drain(obey: bool) returns (bad: bool)
      requires JournalOk() && LedgerOk() && ButtonsOk() && StartOk()
      modifies this`keys, this`buttons, this`ownedModifiers, this`keysDown, this`modsDown, this`held, this`erasures,
               this`foreignButtonActivity, this`world
      ensures JournalOk() && LedgerOk() && ButtonsOk() && StartOk() && HoldsKept()
      ensures obey ==> OthersSpared()
      ensures world.out <= old(world.out) && keys <= old(keys) && buttons <= old(buttons)
        && (ownedModifiers ==> old(ownedModifiers))
      ensures !bad && keyboard.Some? ==> LedgersEmpty()
      ensures LeftAlone() && (keyboard.Some? && !bad && old(JournalNeeded()) ==> old(JournalUp()))
      ensures old(LedgersEmpty()) ==> !bad
      ensures obey && keyboard.Some? && old((JournalNeeded() ==> JournalUp()) && (buttons == {} || OwnsButtons())) ==>
        !bad && Lifted()
    {
      hide Inv, JournalOk, LedgerOk, ButtonsOk, Accounted;
      var badKeys := DrainKeys(obey);
      ghost var h1, e1 := held, erasures;
      var badMods := DrainModifiers(obey);
      ghost var h2, e2 := held, erasures;
      AccountedOn(old(held), old(erasures), h1, e1, h2, e2, false);
      var badButtons := DrainButtons(obey);
      AccountedOn(old(held), old(erasures), h2, e2, held, erasures, false);
      bad := badKeys || badMods || badButtons;
    }

    // A release needs the journal if it has an intent to retire.
    predicate JournalNeeded()
      reads this`keys, this`buttons, this`ownedModifiers, this`world
    {
      keys != {} || buttons != {} || (ownedModifiers && world.j.held.modifiers != {})
    }

    // What is in no ledger is not lifted.
    twostate predicate LeftAlone()
      reads this`keysDown, this`modsDown
    {
      && (forall h <- old(keysDown) :: h.code !in old(keys) ==> h in keysDown)
      && (!old(ownedModifiers) ==> modsDown == old(modsDown))
    }

    // Of what the owned devices held, nothing that was in a ledger is down any more.
    twostate predicate Lifted()
      reads this`keysDown, this`modsDown, this`held, this`keyboard
    {
      && keyboard.Some?
      && (forall h <- keysDown :: h in old(keysDown)) && (forall k <- old(keys) :: Hold(k, keyboard.value) !in keysDown)
      && modsDown <= old(modsDown) && (old(ownedModifiers) ==> keyboard.value !in modsDown)
      && (forall h <- held :: h in old(held) && h.code !in old(buttons))
    }

    // After the drain the owned devices themselves must agree that nothing is held.
    predicate Quiet(alreadyClean: bool, hadButtons: bool)
      reads this`keyboard, this`keyboards, this`pointer, this`pointers, this`keysDown, this`modsDown, this`held,
            this`activeOwner
    {
      && (if Alive(keyboard, keyboards)
          then keyboard.value !in modsDown && forall h <- keysDown :: h.device != keyboard.value
          else activeOwner.None? || alreadyClean)
      && (activeOwner.None? || alreadyClean || (Alive(pointer, pointers) && (hadButtons ==> held == [])))
    }

    lemma NothingOut()
      requires LedgerOk() && LedgersEmpty()
      ensures world.out <= orphans
    {}

    // With empty ledgers the owned pointer has nothing in the aggregate list.
    lemma NothingHeld()
      requires Valid() && LedgersEmpty()
      ensures forall h <- held :: pointer != Some(h.device)
    {}

    // The drain was refused: another device may hold the same inputs.
    method MarkUnreleased()
      requires activeOwner.Some? && activeOwner.value in owners && ChainsOk() && OwnersSane()
      modifies this`owners
      ensures OwnersKept() && ChainsOk() && OwnersSane()
      ensures owners == old(owners)[activeOwner.value := owners[activeOwner.value]]
      ensures !old(owners)[activeOwner.value].reconciled ==>
        AccountOk(owners[activeOwner.value], false, true, LedgersEmpty())
    {
      MarkActive(owners[activeOwner.value].(unknown := true, ack := false, empty := false));
    }

    // What revoke() concludes from the drain.
    method Settle(bad: bool, alreadyClean: bool, hadButtons: bool)
      requires ChainsOk() && OwnersSane()
      requires activeOwner.Some? ==>
        activeOwner.value in owners && !owners[activeOwner.value].unknown && !owners[activeOwner.value].reconciled
      modifies this`owners, this`failed
      ensures OwnersKept() && ChainsOk() && OwnersSane()
      ensures failed == (bad || !LedgersEmpty() || !Quiet(alreadyClean, hadButtons))
      ensures activeOwner.None? ==> owners == old(owners)
      ensures activeOwner.Some? ==>
        && owners == old(owners)[activeOwner.value := owners[activeOwner.value]]
        && owners[activeOwner.value] ==
          old(owners)[activeOwner.value].(empty := LedgersEmpty(), ack := !failed, unknown := failed)
        && AccountOk(owners[activeOwner.value], false, failed, LedgersEmpty())
    {
      hide Chained, AllAdvance, Quiet, ChainsOk, OwnersSane, LedgersEmpty;
      failed := bad || !LedgersEmpty() || !Quiet(alreadyClean, hadButtons);
      NothingLost(owners);
      if activeOwner.Some? {
        AccountAdvances(owners[activeOwner.value], LedgersEmpty(), !failed, failed);
        MarkActive(owners[activeOwner.value].(empty := LedgersEmpty(), ack := !failed, unknown := failed));
      }
    }

    // The owned keyboard holds nothing that is not in a ledger.
    predicate KeyboardOwned()
      reads this`keyboard, this`keysDown, this`keys, this`modsDown, this`ownedModifiers
    {
      && keyboard.Some? && (forall h <- keysDown :: keyboard == Some(h.device) ==> h.code in keys)
      && (keyboard.value in modsDown ==> ownedModifiers)
    }

    // Both owned devices are there, or everything was released before.
    predicate DevicesOrClean(alreadyClean: bool)
      reads this`keyboard, this`keyboards, this`pointer, this`pointers
    {
      alreadyClean || (Alive(keyboard, keyboards) && Alive(pointer, pointers))
    }

    // A release that may be tried succeeds if the environment obeys: the journal works, if it is
    // needed; both owned devices are there, or everything was released before; and the keyboard
    // holds nothing that is not in a ledger.
    predicate Releasable()
      reads this`activeOwner, this`owners, this`failed, this`keyboard, this`keyboards, this`pointer, this`pointers,
            this`world, this`keysDown, this`keys, this`buttons, this`modsDown, this`ownedModifiers
    {
      activeOwner.Some? ==>
        && (JournalNeeded() ==> JournalUp()) && DevicesOrClean(AlreadyClean())
        && (Alive(keyboard, keyboards) ==> KeyboardOwned())
    }

    // The devices before the drain, lifted of what was in the ledgers, are quiet.
    lemma LiftedIsQuiet(alreadyClean: bool, hadButtons: bool, ledger: Owned, before: Seen)
      requires keyboard.Some? && DevicesOrClean(alreadyClean)
      requires Alive(keyboard, keyboards) ==>
        && (forall h <- before.keysDown :: keyboard == Some(h.device) ==> h.code in ledger.keys)
        && (keyboard.value in before.modsDown ==> ledger.modifiers)
      requires hadButtons ==> forall h <- before.held :: h.code in ledger.buttons
      requires (forall h <- keysDown :: h in before.keysDown)
        && (forall k <- ledger.keys :: Hold(k, keyboard.value) !in keysDown)
      requires modsDown <= before.modsDown && (ledger.modifiers ==> keyboard.value !in modsDown)
      requires forall h <- held :: h in before.held && h.code !in ledger.buttons
      ensures Quiet(alreadyClean, hadButtons)
    {
      if hadButtons { NoneHeld(before, ledger); }
    }

    lemma NoneHeld(before: Seen, ledger: Owned)
      requires forall h <- before.held :: h.code in ledger.buttons
      ensures (forall h <- held :: h in before.held && h.code !in ledger.buttons) ==> held == []
    {
      if held != [] { assert held[0] in held; }
    }

    // Quiet devices were releasable: what is not in a ledger is not lifted.
    lemma QuietWasOwned(alreadyClean: bool, hadButtons: bool, ledger: Owned, before: Seen)
      requires activeOwner.Some? && Quiet(alreadyClean, hadButtons)
      requires forall h <- before.keysDown :: h.code !in ledger.keys ==> h in keysDown
      requires !ledger.modifiers ==> modsDown == before.modsDown
      ensures DevicesOrClean(alreadyClean)
      ensures Alive(keyboard, keyboards) ==>
        && (forall h <- before.keysDown :: keyboard == Some(h.device) ==> h.code in ledger.keys)
        && (keyboard.value in before.modsDown ==> ledger.modifiers)
        && KeyboardOwned()
    {}

    // The drain leaves the devices quiet exactly if they were releasable, when everything obeys.
    method DrainQuietly(ghost alreadyClean: bool, ghost hadButtons: bool, obey: bool) returns (bad: bool)
      requires JournalOk() && LedgerOk() && ButtonsOk() && StartOk() && hadButtons == (buttons != {})
      requires activeOwner.Some? ==> keyboard.Some?
      modifies this`keys, this`buttons, this`ownedModifiers, this`keysDown, this`modsDown, this`held, this`erasures,
               this`foreignButtonActivity, this`world
      ensures JournalOk() && LedgerOk() && ButtonsOk() && StartOk() && HoldsKept() && (obey ==> OthersSpared())
      ensures world.out <= old(world.out) && keys <= old(keys) && buttons <= old(buttons)
        && (ownedModifiers ==> old(ownedModifiers))
      ensures activeOwner.None? ==> !bad && LedgersEmpty() && Quiet(alreadyClean, hadButtons)
      ensures activeOwner.Some? && !bad && Quiet(alreadyClean, hadButtons) ==>
        && LedgersEmpty() && old(JournalNeeded() ==> JournalUp()) && DevicesOrClean(alreadyClean)
        && (Alive(keyboard, keyboards) ==> old(KeyboardOwned()) && KeyboardOwned())
      ensures obey && activeOwner.Some? && DevicesOrClean(alreadyClean) && old(Drainable()) ==>
        !bad && Quiet(alreadyClean, hadButtons)
    {
      hide Inv, Accounted, OthersSpared, JournalOk, LedgerOk, ButtonsOk, Quiet, JournalUp, JournalNeeded,
        DevicesOrClean;
      ghost var ledger, before := Owned(keys, buttons, ownedModifiers), Seen(keysDown, modsDown, held);
      ghost var can := obey && DevicesOrClean(alreadyClean) && Drainable();
      if OwnsButtons() { ButtonsInLedger(); }
      bad := Drain(obey);
      if activeOwner.None? {
        NoOwnerIsQuiet(alreadyClean, hadButtons);
      } else {
        if can { LiftedIsQuiet(alreadyClean, hadButtons, ledger, before); }
        if Quiet(alreadyClean, hadButtons) { QuietWasOwned(alreadyClean, hadButtons, ledger, before); }
      }
    }

    // The journal, the buttons and the keyboard allow a drain.
    predicate Drainable()
      reads this`keyboard, this`keyboards, this`pointer, this`world, this`keysDown, this`keys, this`buttons,
            this`modsDown, this`ownedModifiers, this`buttonOwnershipKnown, this`foreignButtonActivity
    {
      && (JournalNeeded() ==> JournalUp()) && (buttons == {} || OwnsButtons())
      && (Alive(keyboard, keyboards) ==> KeyboardOwned())
    }

    lemma ButtonsInLedger()
      requires ButtonsOk() && OwnsButtons()
      ensures forall h <- held :: h.code in buttons
    {}

    lemma NoOwnerIsQuiet(alreadyClean: bool, hadButtons: bool)
      requires activeOwner.None? && StartOk()
      ensures Quiet(alreadyClean, hadButtons) && LedgersEmpty()
    {}

    // Ended before, with everything released, and nothing has happened since.
    predicate AlreadyClean()
      reads this`activeOwner, this`owners, this`failed, this`keys, this`buttons, this`ownedModifiers
    {
      && activeOwner.Some? && activeOwner.value in owners
      && owners[activeOwner.value].empty && owners[activeOwner.value].ack && !failed && LedgersEmpty()
    }

    // What a drain may be started on, and what it ends with.
    ghost predicate PartsOk()
      reads this`world, this`keys, this`buttons, this`ownedModifiers, this`held, this`erasures, this`pointer,
            this`buttonOwnershipKnown, this`foreignButtonActivity, this`activeOwner, this`armed, this`keyboard,
            this`owners, this`chains, this`exited
    {
      JournalOk() && LedgerOk() && ButtonsOk() && StartOk() && ChainsOk() && OwnersSane()
    }

    lemma NothingNeeded()
      requires LedgersEmpty()
      ensures !JournalNeeded()
    {}

    method DrainAndSettle(obey: bool)
      requires PartsOk()
      requires activeOwner.Some? ==>
        && keyboard.Some? && activeOwner.value in owners
        && !owners[activeOwner.value].unknown && !owners[activeOwner.value].reconciled
      modifies this`failed, this`keys, this`buttons, this`ownedModifiers, this`keysDown, this`modsDown, this`held,
               this`erasures, this`foreignButtonActivity, this`world, this`owners
      ensures PartsOk() && OwnersKept() && HoldsKept() && OnlyActive() && (obey ==> OthersSpared())
      ensures activeOwner.Some? ==>
        && activeOwner.value in owners && !owners[activeOwner.value].reconciled
        && owners[activeOwner.value].unknown == failed
        && AccountOk(owners[activeOwner.value], false, failed, LedgersEmpty())
      ensures !failed ==> LedgersEmpty()
      ensures world.out <= old(world.out) && keys <= old(keys) && buttons <= old(buttons)
      ensures !failed ==> old(Releasable()) && Releasable()
      ensures obey && old(Releasable() && (buttons == {} || OwnsButtons())) ==> !failed
    {
      hide Inv, Chained, AllAdvance, Accounted, OthersSpared, InTime, JournalOk, ButtonsOk, LedgerOk, ChainsOk,
        OwnersSane, Quiet, AccountOk, LedgersEmpty, StartOk, KeyboardOwned, JournalUp, OwnsButtons;
      var alreadyClean, hadButtons := AlreadyClean(), buttons != {};
      var bad := DrainQuietly(alreadyClean, hadButtons, obey);
      Settle(bad, alreadyClean, hadButtons);
      if LedgersEmpty() { NothingNeeded(); }
    }

    // revoke() past its refusals: drain, then settle the account of the active owner.
    method ReleaseOwned(obey: bool)
      requires Valid() && !armed
      requires activeOwner.Some? ==> !owners[activeOwner.value].unknown && !owners[activeOwner.value].reconciled
      modifies this`failed, this`keys, this`buttons, this`ownedModifiers, this`keysDown, this`modsDown, this`held,
               this`erasures, this`foreignButtonActivity, this`world, this`owners
      ensures Valid() && OwnersKept() && HoldsKept() && owners.Keys == old(owners).Keys && (obey ==> OthersSpared())
      ensures !failed ==> LedgersEmpty() && world.out <= orphans
      ensures world.out <= old(world.out) && keys <= old(keys) && buttons <= old(buttons)
      ensures OnlyActive()
      ensures !failed ==> old(Releasable()) && Releasable() && !Undrainable()
      ensures obey && old(Releasable() && (buttons == {} || OwnsButtons())) ==> !failed
    {
      hide Inv, Chained, AllAdvance, Accounted, OthersSpared, InTime, JournalOk, ButtonsOk, LedgerOk, ChainsOk,
        OwnersSane, ReceiptOk, LeaseOk, AccountOk, Releasable, LedgersEmpty, StartOk;
      DrainAndSettle(obey);
      if !failed { NothingOut(); }
    }

    method Refuse()
      requires Valid() && !armed && activeOwner.Some? && !owners[activeOwner.value].reconciled
      modifies this`failed, this`owners
      ensures Valid() && Kept() && failed
      ensures owners == old(owners)[activeOwner.value := owners[activeOwner.value]]
    {
      hide Inv, Chained, AllAdvance, Follows, InTime, JournalOk, ButtonsOk, LedgerOk, ChainsOk, OwnersSane, ReceiptOk,
        LeaseOk, AccountOk;
      ghost var before := Now();
      MarkUnreleased();
      OwnersFollow(before, owners);
      failed := true;
    }

    // Where nothing may be released: the account is already unknown or settled, or something
    // else may hold the same inputs.
    predicate Undrainable()
      reads this`keys, this`buttons, this`ownedModifiers, this`keysDown, this`keyboard, this`buttonOwnershipKnown,
            this`foreignButtonActivity, this`activeOwner, this`owners
    {
      && activeOwner.Some? && activeOwner.value in owners
      && (owners[activeOwner.value].unknown || owners[activeOwner.value].reconciled || (!LedgersEmpty() && Overlap()))
    }

    // The active owner's account is settled.
    predicate Reconciled()
      reads this`activeOwner, this`owners
    {
      activeOwner.Some? && activeOwner.value in owners && owners[activeOwner.value].reconciled
    }

    // No account but the active owner's is written.
    twostate predicate OnlyActive()
      reads this`owners, this`activeOwner
    {
      owners == if activeOwner.Some? && activeOwner.value in owners
                then old(owners)[activeOwner.value := owners[activeOwner.value]]
                else old(owners)
    }

    twostate predicate Untouched()
      reads this`keys, this`buttons, this`ownedModifiers, this`keysDown, this`modsDown, this`held, this`erasures,
            this`world
    {
      && keys == old(keys) && buttons == old(buttons) && ownedModifiers == old(ownedModifiers)
      && keysDown == old(keysDown) && modsDown == old(modsDown) && held == old(held) && erasures == old(erasures)
      && world == old(world)
    }

    method Revoke(obey: bool)
      requires Valid()
      modifies this`armed, this`deadline, this`failed, this`keys, this`buttons, this`ownedModifiers, this`keysDown,
               this`modsDown, this`held, this`erasures, this`foreignButtonActivity, this`world, this`owners
      ensures Valid() && Kept() && (obey ==> OthersSpared()) && !armed
      ensures !failed ==> LedgersEmpty() && world.out <= orphans && forall h <- held :: pointer != Some(h.device)
      ensures world.out <= old(world.out) && keys <= old(keys) && buttons <= old(buttons)
      ensures OnlyActive()
      ensures old(Undrainable()) ==> Untouched() && (failed || old(Reconciled()))
      ensures obey && !old(Undrainable()) ==> (!failed <==> old(Releasable()))
      ensures !failed && !old(Undrainable()) ==> Releasable() && !Undrainable()
      ensures old(HeldElsewhere()) ==> Untouched() && (failed || old(Reconciled()))
      ensures obey && old(!HeldElsewhere() && Unsettled() && Releasable()) ==> !failed
      ensures !failed && activeOwner.Some? && !old(Reconciled()) ==> old(DevicesStand() || EndedClean()) && NoneDown()
    {
      hide Valid, Follows, Undrainable, Releasable, LedgersEmpty, HeldElsewhere, DevicesStand, EndedClean, NoneDown,
        Unsettled;
      OverlapIsElsewhere();
      if Releasable() { ReleasableDevices(); }
      Disarm();
      if Undrainable() {
        Decline();
      } else {
        Proceed(obey);
        if !failed { ReleasedIsQuiet(); }
      }
      if !failed { NothingHeld(); }
    }

    // Another keyboard holds a key of the ledger, or any key while modifiers are owned, or the
    // owned buttons are not known to be the owned pointer's alone.
    ghost predicate HeldElsewhere()
      reads this`keys, this`buttons, this`ownedModifiers, this`keysDown, this`keyboard, this`buttonOwnershipKnown,
            this`foreignButtonActivity
    {
      || (exists h <- keysDown :: keyboard != Some(h.device) && h.code in keys)
      || (ownedModifiers && exists h <- keysDown :: keyboard != Some(h.device))
      || (buttons != {} && !buttonOwnershipKnown)
      || (buttons != {} && foreignButtonActivity)
    }

    // The active owner's account is neither unknown nor settled.
    ghost predicate Unsettled()
      reads this`activeOwner, this`owners
    {
      activeOwner.Some? && activeOwner.value in owners ==>
        !owners[activeOwner.value].unknown && !owners[activeOwner.value].reconciled
    }

    // The account says that everything was released, and nothing has failed or is owned since.
    ghost predicate EndedClean()
      reads this`activeOwner, this`owners, this`failed, this`keys, this`buttons, this`ownedModifiers
    {
      && activeOwner.Some? && activeOwner.value in owners
      && owners[activeOwner.value].empty && owners[activeOwner.value].ack
      && !failed && keys == {} && buttons == {} && !ownedModifiers
    }

    // The owned keyboard, if it is there, has no key and no modifier down.
    ghost predicate NoneDown()
      reads this`keyboard, this`keyboards, this`keysDown, this`modsDown
    {
      keyboard.Some? && keyboard.value in keyboards && !keyboards[keyboard.value].dead ==>
        keyboard.value !in modsDown && forall h <- keysDown :: h.device != keyboard.value
    }

    lemma OverlapIsElsewhere()
      requires Valid()
      ensures HeldElsewhere() ==> Undrainable()
      ensures !HeldElsewhere() && Unsettled() ==> !Undrainable()
    {
      hide Inv, Chained, InTime, JournalOk, LedgerOk, ButtonsOk, ChainsOk, OwnersSane, ReceiptOk, LeaseOk, DevicesOk;
      assert Overlap() <==> HeldElsewhere();
    }

    lemma ReleasableDevices()
      requires Releasable()
      ensures activeOwner.Some? ==> DevicesStand() || EndedClean()
    {}

    lemma ReleasedIsQuiet()
      requires Releasable() && LedgersEmpty()
      ensures activeOwner.Some? ==> NoneDown()
    {}

    method Disarm()
      requires Valid()
      modifies this`armed, this`deadline
      ensures Valid() && !armed
    {
      hide Inv, AllChained, Sane, InTime, JournalOk, ButtonsOk, LedgerOk, ChainsOk, OwnersSane, ReceiptOk;
      armed, deadline := false, 0;
    }

    // revoke() where something may be drained, if the compositor is still there.
    method Proceed(obey: bool)
      requires Valid() && !armed && !Undrainable()
      modifies this`failed, this`keys, this`buttons, this`ownedModifiers, this`keysDown, this`modsDown, this`held,
               this`erasures, this`foreignButtonActivity, this`world, this`owners
      ensures Valid() && Kept() && (obey ==> OthersSpared())
      ensures !failed ==> LedgersEmpty() && world.out <= orphans
      ensures world.out <= old(world.out) && keys <= old(keys) && buttons <= old(buttons)
      ensures OnlyActive()
      ensures !failed ==> old(Releasable()) && Releasable() && !Undrainable()
      ensures obey && old(Releasable()) ==> !failed
    {
      hide Valid, Follows, AllAdvance, Accounted, OthersSpared, Undrainable, Releasable;
      MayDrain();
      var noManager: bool :| obey ==> !noManager;
      if activeOwner.Some? && !LedgersEmpty() && noManager {
        Refuse();
        return;
      }
      ghost var before := Now();
      ReleaseOwned(obey);
      BothFollow(before, owners, held, erasures);
    }

    lemma MayDrain()
      requires Valid() && !Undrainable()
      ensures activeOwner.Some? ==> !owners[activeOwner.value].unknown && !owners[activeOwner.value].reconciled
      ensures buttons == {} || OwnsButtons()
    {}

    // revoke() where nothing may be drained. An account that is not settled yet becomes unknown.
    method Decline()
      requires Valid() && !armed && Undrainable()
      modifies this`failed, this`owners
      ensures Valid() && Kept() && activeOwner.Some? && (failed || old(Reconciled()))
      ensures !failed ==> LedgersEmpty() && world.out <= orphans
      ensures owners == old(owners)[activeOwner.value := owners[activeOwner.value]]
    {
      hide Inv, Chained, Follows, InTime, JournalOk, ButtonsOk, LedgerOk, ChainsOk, OwnersSane, ReceiptOk, LeaseOk;
      FollowsItself(Now());
      if owners[activeOwner.value].unknown {
        failed := true;
      } else if owners[activeOwner.value].reconciled {
        if !failed { EmptyIsClean(); }
      } else {
        Refuse();
      }
    }

    // Nothing here can extend or start a lease; downs are only ever added to the record.
    twostate predicate LeaseKept()
      reads this`now, this`armed, this`deadline, this`granted, this`absolute, this`token, this`guardianFD,
            this`activeOwner, this`admissions
    {
      && (armed ==> old(armed) && deadline == old(deadline) && granted == old(granted) && absolute == old(absolute)
                    && token == old(token) && guardianFD == old(guardianFD))
      && activeOwner == old(activeOwner)
      && (admissions == old(admissions)
          || (old(armed) && admissions == old(admissions)
            + [Admission(now, old(deadline), old(granted), old(absolute))]))
    }

    // ---- Admission ----

    // scope(). The view says whether the window, focus and surfaces are still those bound.
    predicate InScope(view: bool)
      reads this`armed, this`failed, this`now, this`deadline, this`guardianFD, this`peers, this`exited, this`keyboard,
            this`keyboards, this`pointer, this`pointers
    {
      && armed && !failed && now < deadline
      && guardianFD.Some? && guardianFD.value in peers && peers[guardianFD.value].proc !in exited
      && Alive(keyboard, keyboards) && Alive(pointer, pointers) && view
    }

    // The guardian that is bound is connected and has not exited.
    ghost predicate GuardianStands()
      reads this`guardianFD, this`peers, this`exited
    {
      guardianFD.Some? && guardianFD.value in peers && !(peers[guardianFD.value].proc in exited)
    }

    // Both owned devices are there, and neither was destroyed.
    ghost predicate DevicesStand()
      reads this`keyboard, this`keyboards, this`pointer, this`pointers
    {
      && keyboard.Some? && keyboard.value in keyboards && !keyboards[keyboard.value].dead
      && pointer.Some? && pointer.value in pointers && !pointers[pointer.value].dead
    }

    // Everything an admission demands at the moment of the event.
    ghost predicate Stands(view: bool)
      reads this`armed, this`failed, this`now, this`deadline, this`guardianFD, this`peers, this`exited, this`keyboard,
            this`keyboards, this`pointer, this`pointers
    {
      view && armed && !failed && now < deadline && GuardianStands() && DevicesStand()
    }

    lemma InScopeStands(view: bool)
      ensures InScope(view) <==> Stands(view)
    {}

    predicate Fenced()
      reads this`activeOwner, this`owners
    {
      activeOwner.Some? && activeOwner.value in owners
        && (owners[activeOwner.value].unknown || owners[activeOwner.value].inputFenced)
    }

    // A late duplicate up may be swallowed only after a completed clean release.
    predicate CleanInactiveOwner()
      reads this
    {
      && !armed && !failed && activeOwner.Some? && activeOwner.value in owners
        && Clean(owners[activeOwner.value], keyboard, pointer)
      && LedgersEmpty() && Alive(keyboard, keyboards) && Alive(pointer, pointers)
      && (forall h <- keysDown :: h.device != keyboard.value) && keyboard.value !in modsDown
    }

    // The active owner's account is unknown, or its input was fenced by an adoption.
    ghost predicate Withdrawn()
      reads this`activeOwner, this`owners
    {
      activeOwner.Some? && activeOwner.value in owners
        && (owners[activeOwner.value].unknown || owners[activeOwner.value].inputFenced)
    }

    // The lease ended with everything released and acknowledged, the owner is not lost in any way,
    // and the owned devices are there and hold nothing, if these are the holds.
    ghost predicate ReleasedCleanly(down: set<Hold>, mods: set<nat>)
      reads this`armed, this`failed, this`activeOwner, this`owners, this`keys, this`buttons, this`ownedModifiers,
            this`keyboard, this`keyboards, this`pointer, this`pointers
    {
      && !armed && !failed && activeOwner.Some? && activeOwner.value in owners && DevicesStand()
      && var o := owners[activeOwner.value];
        && o.empty && o.ack && !o.unknown && !o.inputFenced && !o.revoked && !o.retired && !o.reconciled
        && o.keyboard == keyboard && o.pointer == pointer && keys == {} && buttons == {} && !ownedModifiers
        && (forall h <- down :: h.device != keyboard.value) && keyboard.value !in mods
    }

    lemma CleanMeans()
      ensures CleanInactiveOwner() <==> ReleasedCleanly(keysDown, modsDown)
      ensures CleanInactiveOwner() ==> !armed
    {}

    // allow()
    method Allow(view: bool) returns (ok: bool)
      requires Valid()
      modifies this`armed, this`deadline, this`failed, this`keys, this`buttons, this`ownedModifiers, this`keysDown,
               this`modsDown, this`held, this`erasures, this`foreignButtonActivity, this`world, this`owners
      ensures Valid() && Kept() && LeaseKept()
      ensures if ok then Stands(view) && unchanged(this) else !armed
      ensures ok ==> view && armed && !failed && now < deadline && GuardianStands() && DevicesStand()
      ensures old(Stands(view)) && !old(Fenced()) ==> ok
      ensures world.out <= old(world.out) && keys <= old(keys) && buttons <= old(buttons)
    {
      hide Valid, Follows, Undrainable, Untouched, Releasable;
      FollowsItself(Now());
      InScopeStands(view);
      if activeOwner.Some? && activeOwner.value in owners && owners[activeOwner.value].inputFenced {
        FencedIsDisarmed();
        return false;
      }
      ok := InScope(view);
      if !ok { Revoke(false); }
    }

    lemma FencedIsDisarmed()
      requires Valid() && activeOwner.Some? && owners[activeOwner.value].Lost()
      ensures !armed
    {}

    lemma ArmedIsNotFenced()
      requires Valid() && armed
      ensures !Fenced()
    {}

    lemma StandsIsArmed(view: bool)
      requires Stands(view)
      ensures view && armed && !failed && now < deadline && GuardianStands() && DevicesStand()
    {}

    // A down is forwarded: only ever before the deadline.
    ghost method Admit()
      requires armed && now < deadline && LeaseOk()
      modifies this`admissions
      ensures LeaseOk() && admissions == old(admissions) + [Admission(now, deadline, granted, absolute)]
    {
      admissions := admissions + [Admission(now, deadline, granted, absolute)];
    }

    // A key went down, was recorded and was forwarded.
    twostate predicate KeyAdmitted(code: uint32)
      reads this`now, this`deadline, this`granted, this`absolute, this`keys, this`world, this`admissions
    {
      && keys == old(keys) + {code} && world.out == old(world.out) + {Entry(KEY, code)}
      && code !in old(world.j.held.keys) && code in world.j.held.keys
      && admissions == old(admissions) + [Admission(now, deadline, granted, absolute)]
    }

    // A key came up: it left the ledger, and its intent is retired.
    twostate predicate KeyReleased(code: uint32)
      reads this`keys, this`world
    {
      && keys == old(keys) - {code} && Entry(KEY, code) !in world.out && JournalUp()
      && world.j.held == old(world.j.held).Without(KEY, code)
    }

    twostate predicate NoKeyAdmitted()
      reads this`keys, this`world, this`admissions
    {
      keys <= old(keys) && world.out <= old(world.out) && admissions == old(admissions)
    }

    // onKeyboardKey(). The device's own state changes before the hook runs.
    method OnKey(device: nat, code: uint32, down: bool, view: bool, obey: bool) returns (admitted: bool)
      requires Valid()
      modifies this`armed, this`deadline, this`failed, this`keys, this`buttons, this`ownedModifiers, this`keysDown,
               this`modsDown, this`held, this`erasures, this`foreignButtonActivity, this`world, this`owners,
               this`admissions
      ensures Valid() && Kept() && LeaseKept()
      ensures admitted ==> down && keyboard == Some(device) && old(Stands(view)) && !old(Fenced())
      ensures admitted ==> view && old(armed && !failed && now < deadline && GuardianStands() && DevicesStand())
      ensures keyboard == Some(device) && (down || code !in old(keys)) && !old(Stands(view)) ==> !armed
      ensures keyboard == Some(device) && old(Withdrawn()) ==> keys == old(keys) && world == old(world)
      ensures keyboard == Some(device) && !down && code !in old(keys) ==>
        old(ReleasedCleanly(keysDown - {Hold(code, device)}, modsDown)) ==> world == old(world) && failed == old(failed)
      ensures if admitted then KeyAdmitted(code) else NoKeyAdmitted()
      ensures keyboard != Some(device) ==> Poisons()
      ensures obey && !down && keyboard == Some(device) && code in old(keys) && old(!Fenced() && JournalUp()) ==>
        KeyReleased(code)
      ensures down && keyboard == Some(device) && old(Stands(view) && !Fenced()) ==>
        admitted || (Unrecordable(KEY, code) && !(obey && old(Recordable(KEY, code))))
    {
      hide Stands, Fenced, Withdrawn, GuardianStands, DevicesStand, Valid, Follows, ReleasedCleanly, Unrecordable,
        Recordable, KeyAdmitted, KeyReleased, NoKeyAdmitted, LeaseKept, Kept, Poisons;
      admitted := false;
      if keyboard == Some(device) {
        if Stands(view) { StandsIsArmed(view); }
        admitted := OwnKey(device, code, down, view, obey);
      } else {
        OtherKey(device, code, down);
      }
    }

    // A key of another keyboard: the event passes through; another guardian's is swallowed.
    method OtherKey(device: nat, code: uint32, down: bool)
      requires Valid()
      modifies this`keysDown, this`world
      ensures Valid() && Kept() && LeaseKept() && NoKeyAdmitted() && Poisons()
    {
      hide Valid, Follows;
      FollowsItself(Now());
      keysDown := if down then keysDown + {Hold(code, device)} else keysDown - {Hold(code, device)};
      OtherKeyboard();
      if device in keyboards { keysDown := keysDown - {Hold(code, device)}; }
    }

    // A key of the owned keyboard.
    method OwnKey(device: nat, code: uint32, down: bool, view: bool, obey: bool) returns (admitted: bool)
      requires Valid() && keyboard == Some(device)
      modifies this`armed, this`deadline, this`failed, this`keys, this`buttons, this`ownedModifiers, this`keysDown,
               this`modsDown, this`held, this`erasures, this`foreignButtonActivity, this`world, this`owners,
               this`admissions
      ensures Valid() && Kept() && LeaseKept()
      ensures admitted ==> down && old(Stands(view)) && !old(Fenced())
      ensures (down || code !in old(keys)) && !old(Stands(view)) ==> !armed
      ensures old(Withdrawn()) ==> keys == old(keys) && world == old(world)
      ensures !down && code !in old(keys) ==>
        old(ReleasedCleanly(keysDown - {Hold(code, device)}, modsDown)) ==> world == old(world) && failed == old(failed)
      ensures if admitted then KeyAdmitted(code) else NoKeyAdmitted()
      ensures obey && !down && code in old(keys) && old(!Fenced() && JournalUp()) ==> KeyReleased(code)
      ensures down && old(Stands(view) && !Fenced()) ==>
        admitted || (Unrecordable(KEY, code) && !(obey && old(Recordable(KEY, code))))
    {
      hide Stands, Valid, Follows, CleanInactiveOwner, ReleasedCleanly, Unrecordable, Recordable;
      FollowsItself(Now());
      if armed { ArmedIsNotFenced(); }
      if Stands(view) { StandsIsArmed(view); }
      admitted := false;
      keysDown := if down then keysDown + {Hold(code, device)} else keysDown - {Hold(code, device)};
      if !Fenced() {
        CleanMeans();
        admitted := OwnedKey(code, down, view, obey);
      }
    }

    method OtherKeyboard()
      requires Valid()
      modifies this`world
      ensures Valid() && world.out == old(world.out) && Poisons()
    {
      hide Inv, Poisons, Chained, InTime, ButtonsOk, ChainsOk, OwnersSane, ReceiptOk, AccountOk, LeaseOk;
      ForeignInput();
    }

    method OwnedKey(code: uint32, down: bool, view: bool, obey: bool) returns (admitted: bool)
      requires Valid() && keyboard.Some? && !Fenced()
      modifies this`armed, this`deadline, this`failed, this`keys, this`buttons, this`ownedModifiers, this`keysDown,
               this`modsDown, this`held, this`erasures, this`foreignButtonActivity, this`world, this`owners,
               this`admissions
      ensures Valid() && Kept() && LeaseKept()
      ensures if admitted then down && old(Stands(view)) && KeyAdmitted(code) else NoKeyAdmitted()
      ensures (down || code !in old(keys)) && !old(Stands(view)) ==> !armed
      ensures !down && code !in old(keys) && old(CleanInactiveOwner()) ==> world == old(world) && failed == old(failed)
      ensures obey && !down && code in old(keys) && old(JournalUp()) ==> KeyReleased(code)
      ensures down && old(Stands(view)) ==>
        admitted || (Unrecordable(KEY, code) && !(obey && old(Recordable(KEY, code))))
    {
      hide Stands, Fenced, Valid, Follows, CleanInactiveOwner, ReleasedCleanly, Unrecordable, Recordable;
      FollowsItself(Now());
      admitted := false;
      if !down && code in keys {
        OwnedKeyUp(code, obey);
        return;
      }
      CleanMeans();
      if !down && CleanInactiveOwner() {
        return;
      }
      var ok := Allow(view);
      if !ok {
        keysDown := keysDown - {Hold(code, keyboard.value)};
      } else if down {
        StandsIsArmed(view);
        admitted := OwnedKeyDown(code, obey);
      }
    }

    method OwnedKeyUp(code: uint32, obey: bool)
      requires Valid()
      modifies this`world, this`keys
      ensures Valid() && keys <= old(keys) && world.out <= old(world.out)
      ensures obey && old(JournalUp()) ==> KeyReleased(code)
    {
      hide Inv, Chained, JournalOk, ButtonsOk, ChainsOk, OwnersSane, ReceiptOk, LeaseOk;
      var accepted: bool :| obey ==> accepted;
      if accepted { Witnessed(KEY, code); }
      var _ := FinishKeyRelease(code, accepted, obey);
    }

    method OwnedKeyDown(code: uint32, obey: bool) returns (admitted: bool)
      requires Valid() && armed && now < deadline && keyboard.Some?
      modifies this`world, this`keys, this`keysDown, this`admissions
      ensures Valid()
      ensures if admitted then KeyAdmitted(code) else NoKeyAdmitted()
      ensures !admitted ==> Unrecordable(KEY, code) && !(obey && old(Recordable(KEY, code)))
    {
      hide LeaseOk, Inv, Chained, JournalOk, LedgerOk, ChainsOk, OwnersSane, ReceiptOk, ButtonsOk, Unrecordable,
        Recordable, KeyAdmitted, NoKeyAdmitted;
      admitted := RecordKey(code, obey);
    }

    method RecordKey(code: uint32, obey: bool) returns (admitted: bool)
      requires JournalOk() && LedgerOk() && LeaseOk() && DevicesOk()
      requires armed && now < deadline && keyboard.Some?
      modifies this`world, this`keys, this`keysDown, this`admissions
      ensures JournalOk() && LedgerOk() && LeaseOk()
      ensures if admitted then KeyAdmitted(code) else NoKeyAdmitted() && keys == old(keys)
      ensures !admitted ==> Unrecordable(KEY, code) && !(obey && old(Recordable(KEY, code)))
    {
      hide LeaseOk, Inv, JournalOk, Unrecordable, Recordable, SourceOk;
      admitted := PendingIntent(KEY, code, obey);
      if !admitted {
        if code !in keys { keysDown := keysDown - {Hold(code, keyboard.value)}; }
        return;
      }
      keys := keys + {code};
      Admit();
    }

    // Every one of these fields was recorded, and the event was forwarded.
    twostate predicate ModifiersAdmitted(fields: set<uint32>)
      reads this`now, this`deadline, this`granted, this`absolute, this`ownedModifiers, this`world, this`admissions
    {
      && ownedModifiers && world.out == old(world.out) + KindEntries(MODIFIER, fields)
      && admissions == old(admissions) + [Admission(now, deadline, granted, absolute)]
    }

    // All modifiers came up: none is owned any more, and their intents are retired.
    twostate predicate ModifiersReleased()
      reads this`ownedModifiers, this`world
    {
      && !ownedModifiers && (forall e <- world.out :: e.kind != MODIFIER) && JournalUp()
      && world.j.held == old(world.j.held).(modifiers := {})
    }

    twostate predicate NoModifiersAdmitted()
      reads this`world, this`admissions
    {
      world.out <= old(world.out) && admissions == old(admissions)
    }

    // onKeyboardMod(): fields are the non-zero modifier fields of the device.
    method OnMod(device: nat, fields: set<uint32>, view: bool, obey: bool) returns (admitted: bool)
      requires Valid()
      modifies this`armed, this`deadline, this`failed, this`keys, this`buttons, this`ownedModifiers, this`keysDown,
               this`modsDown, this`held, this`erasures, this`foreignButtonActivity, this`world, this`owners,
               this`admissions
      ensures Valid() && Kept() && LeaseKept()
      ensures admitted ==> keyboard == Some(device) && old(Stands(view)) && !old(Fenced()) && fields != {}
      ensures admitted ==> view && old(armed && !failed && now < deadline && GuardianStands() && DevicesStand())
      ensures keyboard == Some(device) && (fields != {} || !old(ownedModifiers)) && !old(Stands(view)) ==> !armed
      ensures keyboard == Some(device) && old(Withdrawn()) ==>
        ownedModifiers == old(ownedModifiers) && world == old(world)
      ensures keyboard == Some(device) && fields == {} && !old(ownedModifiers) ==>
        old(ReleasedCleanly(keysDown, modsDown - {device})) ==> world == old(world) && failed == old(failed)
      ensures if admitted then ModifiersAdmitted(fields) else NoModifiersAdmitted()
      ensures keys <= old(keys)
      ensures keyboard != Some(device) ==> Poisons()
      ensures obey && fields == {} && keyboard == Some(device) && old(ownedModifiers && !Fenced() && JournalUp()) ==>
        ModifiersReleased()
      ensures fields != {} && keyboard == Some(device) && old(Stands(view) && !Fenced()) ==>
        admitted || (Unrecordable(MODIFIER, 0) && !(obey && old(AllRecordable(fields))))
    {
      hide Stands, Fenced, Withdrawn, GuardianStands, DevicesStand, Valid, Follows, ReleasedCleanly, Unrecordable,
        AllRecordable, ModifiersAdmitted, ModifiersReleased, NoModifiersAdmitted, LeaseKept, Kept, Poisons;
      admitted := false;
      if keyboard == Some(device) {
        if Stands(view) { StandsIsArmed(view); }
        admitted := OwnMod(device, fields, view, obey);
      } else {
        OtherMod(device, fields);
      }
    }

    method OtherMod(device: nat, fields: set<uint32>)
      requires Valid()
      modifies this`modsDown, this`world
      ensures Valid() && Kept() && LeaseKept() && NoModifiersAdmitted() && Poisons()
    {
      hide Valid, Follows;
      FollowsItself(Now());
      modsDown := if fields != {} then modsDown + {device} else modsDown - {device};
      OtherKeyboard();
      if device in keyboards { modsDown := modsDown - {device}; }
    }

    // Modifiers of the owned keyboard.
    method OwnMod(device: nat, fields: set<uint32>, view: bool, obey: bool) returns (admitted: bool)
      requires Valid() && keyboard == Some(device)
      modifies this`armed, this`deadline, this`failed, this`keys, this`buttons, this`ownedModifiers, this`keysDown,
               this`modsDown, this`held, this`erasures, this`foreignButtonActivity, this`world, this`owners,
               this`admissions
      ensures Valid() && Kept() && LeaseKept()
      ensures admitted ==> old(Stands(view)) && !old(Fenced()) && fields != {}
      ensures (fields != {} || !old(ownedModifiers)) && !old(Stands(view)) ==> !armed
      ensures old(Withdrawn()) ==> ownedModifiers == old(ownedModifiers) && world == old(world)
      ensures fields == {} && !old(ownedModifiers) ==>
        old(ReleasedCleanly(keysDown, modsDown - {device})) ==> world == old(world) && failed == old(failed)
      ensures if admitted then ModifiersAdmitted(fields) else NoModifiersAdmitted()
      ensures keys <= old(keys)
      ensures obey && fields == {} && old(ownedModifiers && !Fenced() && JournalUp()) ==> ModifiersReleased()
      ensures fields != {} && old(Stands(view) && !Fenced()) ==>
        admitted || (Unrecordable(MODIFIER, 0) && !(obey && old(AllRecordable(fields))))
    {
      hide Stands, Valid, Follows, CleanInactiveOwner, ReleasedCleanly, Unrecordable, AllRecordable;
      FollowsItself(Now());
      if armed { ArmedIsNotFenced(); }
      if Stands(view) { StandsIsArmed(view); }
      admitted := false;
      modsDown := if fields != {} then modsDown + {device} else modsDown - {device};
      if !Fenced() {
        CleanMeans();
        admitted := OwnedMod(fields, view, obey);
      }
    }

    method OwnedMod(fields: set<uint32>, view: bool, obey: bool) returns (admitted: bool)
      requires Valid() && keyboard.Some? && !Fenced()
      modifies this`armed, this`deadline, this`failed, this`keys, this`buttons, this`ownedModifiers, this`keysDown,
               this`modsDown, this`held, this`erasures, this`foreignButtonActivity, this`world, this`owners,
               this`admissions
      ensures Valid() && Kept() && LeaseKept()
      ensures admitted ==> old(Stands(view)) && fields != {}
      ensures (fields != {} || !old(ownedModifiers)) && !old(Stands(view)) ==> !armed
      ensures fields == {} && !old(ownedModifiers) && old(CleanInactiveOwner()) ==>
        world == old(world) && failed == old(failed)
      ensures if admitted then ModifiersAdmitted(fields) else NoModifiersAdmitted()
      ensures keys <= old(keys)
      ensures obey && fields == {} && old(ownedModifiers && JournalUp()) ==> ModifiersReleased()
      ensures fields != {} && old(Stands(view)) ==>
        admitted || (Unrecordable(MODIFIER, 0) && !(obey && old(AllRecordable(fields))))
    {
      hide Stands, Fenced, Valid, Follows, CleanInactiveOwner, ReleasedCleanly, Unrecordable, AllRecordable;
      FollowsItself(Now());
      if fields == {} && ownedModifiers {
        OwnedModsZero(obey);
        admitted := false;
      } else {
        admitted := FreshMods(fields, view, obey);
      }
    }

    // Modifiers go down, or none is owned.
    method FreshMods(fields: set<uint32>, view: bool, obey: bool) returns (admitted: bool)
      requires Valid() && keyboard.Some? && !Fenced() && (fields == {} ==> !ownedModifiers)
      modifies this`armed, this`deadline, this`failed, this`keys, this`buttons, this`ownedModifiers, this`keysDown,
               this`modsDown, this`held, this`erasures, this`foreignButtonActivity, this`world, this`owners,
               this`admissions
      ensures Valid() && Kept() && LeaseKept() && keys <= old(keys)
      ensures admitted ==> old(Stands(view)) && fields != {}
      ensures !old(Stands(view)) ==> !armed
      ensures fields == {} && old(CleanInactiveOwner()) ==> world == old(world) && failed == old(failed)
      ensures if admitted then ModifiersAdmitted(fields) else NoModifiersAdmitted()
      ensures fields != {} && old(Stands(view)) ==>
        admitted || (Unrecordable(MODIFIER, 0) && !(obey && old(AllRecordable(fields))))
    {
      hide Stands, Fenced, Valid, Follows, CleanInactiveOwner, ReleasedCleanly, Unrecordable, AllRecordable,
        ModifiersReleased;
      FollowsItself(Now());
      admitted := false;
      CleanMeans();
      if fields == {} && CleanInactiveOwner() {
        return;
      }
      var ok := Allow(view);
      if !ok {
        modsDown := modsDown - {keyboard.value};
      } else if fields == {} {
        OwnedModsZero(obey);
      } else {
        StandsIsArmed(view);
        admitted := OwnedModsDown(fields, obey);
        if !admitted { modsDown := modsDown - {keyboard.value}; }
      }
    }

    // All fields are zero: the receiver drops every modifier, if the device is enabled.
    method OwnedModsZero(obey: bool)
      requires Valid()
      modifies this`world, this`ownedModifiers
      ensures Valid() && world.out <= old(world.out)
      ensures obey && old(JournalUp()) ==> ModifiersReleased()
    {
      hide Inv, Chained, JournalOk, ButtonsOk, ChainsOk, OwnersSane, ReceiptOk, LeaseOk;
      var enabled: bool :| obey ==> enabled;
      if enabled {
        WitnessedModifiers();
        var _ := FinishModifierRelease(obey);
      }
    }

    method OwnedModsDown(fields: set<uint32>, obey: bool) returns (admitted: bool)
      requires Valid() && armed && now < deadline && fields != {}
      modifies this`world, this`ownedModifiers, this`admissions
      ensures Valid()
      ensures if admitted then ModifiersAdmitted(fields) else NoModifiersAdmitted()
      ensures obey && old(AllRecordable(fields)) ==> admitted
      ensures !admitted ==> Unrecordable(MODIFIER, 0)
    {
      hide LeaseOk, Inv, Chained, JournalOk, ButtonsOk, ChainsOk, OwnersSane, ReceiptOk, KindEntries, Unrecordable,
        AllRecordable;
      admitted := RecordFields(fields, obey);
      if admitted {
        ModifierEntries(fields);
        ownedModifiers := true;
        Admit();
      }
    }

    lemma ModifierEntries(fields: set<uint32>)
      ensures forall e <- KindEntries(MODIFIER, fields) :: e.kind == MODIFIER
    {}

    lemma NoFields()
      ensures KindEntries(MODIFIER, {}) == {}
    {}

    lemma OneMoreField(done: set<uint32>, f: uint32)
      ensures KindEntries(MODIFIER, done + {f}) == KindEntries(MODIFIER, done) + {Entry(MODIFIER, f)}
    {}

    ghost predicate AllRecordable(fields: set<uint32>)
      reads this`world, this`keyboard, this`keyboards, this`starts
    {
      SourceOk() && forall f <- fields :: ValidCode(MODIFIER, f)
    }

    method RecordFields(fields: set<uint32>, obey: bool) returns (ok: bool)
      requires JournalOk() && DevicesOk()
      modifies this`world
      ensures JournalOk()
      ensures world.out == if ok then old(world.out) + KindEntries(MODIFIER, fields) else old(world.out)
      ensures obey && old(AllRecordable(fields)) ==> ok
      ensures !ok ==> Unrecordable(MODIFIER, 0)
    {
      hide Inv, KindEntries, SourceOk, Memory.HasPending;
      var before := world.out;
      ghost var done: set<uint32> := {};
      var rest := fields;
      NoFields();
      while rest != {}
        invariant JournalOk() && rest + done == fields
        invariant world.out == before + KindEntries(MODIFIER, done)
        invariant obey && old(AllRecordable(fields)) ==> SourceOk()
      {
        var f :| f in rest;
        assert f in fields;
        ok := PendingIntent(MODIFIER, f, obey);
        if !ok {
          NeverForwarded(before);
          return;
        }
        OneMoreField(done, f);
        rest, done := rest - {f}, done + {f};
      }
      assert done == fields;
      ok := true;
    }

    // The event was refused as a whole: what it had recorded is not out.
    method NeverForwarded(before: set<Entry>)
      requires JournalOk() && before <= world.out
      modifies this`world
      ensures JournalOk() && world.out == before && world.j == old(world.j)
    {
      hide Inv;
      while world.out != before
        invariant JournalOk() && before <= world.out && world.j == old(world.j)
        decreases world.out
      {
        var e :| e in world.out && e !in before;
        Witnessed(e.kind, e.code);
      }
    }

    // A foreign event leaves the lease and the ledgers alone, poisons what is pending, and ends
    // exclusive ownership. A stranger's passes through; another guardian's is swallowed.
    twostate predicate ForeignPassed(device: nat, code: uint32, down: bool)
      reads this
    {
      && Beside() && buttons == old(buttons) && Poisons() && (buttonOwnershipKnown ==> foreignButtonActivity)
      && held == if device in pointers then old(held) else Input(old(held), code, device, down)
    }

    // onMouseButton(). target: the pointer is over the bound window's focused surface.
    method OnButton(device: nat, code: uint32, down: bool, view: bool, target: bool, obey: bool)
      returns (admitted: bool)
      requires Valid()
      modifies this`armed, this`deadline, this`failed, this`keys, this`buttons, this`ownedModifiers, this`keysDown,
               this`modsDown, this`held, this`erasures, this`foreignButtonActivity, this`world, this`owners,
               this`admissions
      ensures Valid() && Kept() && LeaseKept()
      ensures admitted ==> down && target && pointer == Some(device) && old(Stands(view)) && !old(Fenced())
      ensures admitted ==> view && old(armed && !failed && now < deadline && GuardianStands() && DevicesStand())
      ensures pointer == Some(device) && (down || code !in old(buttons)) && !(down && target && old(Stands(view))) ==>
        !armed
      ensures pointer == Some(device) && old(Withdrawn()) ==> buttons == old(buttons) && world == old(world)
      ensures pointer == Some(device) && !down && code !in old(buttons) && old(ReleasedCleanly(keysDown, modsDown)) ==>
        world == old(world) && failed == old(failed)
      ensures if admitted then ButtonAdmitted(code) else NoButtonAdmitted()
      ensures down && target && pointer == Some(device) && old(Stands(view) && !Fenced()) ==>
        admitted || (Unrecordable(BUTTON, code) && !(obey && old(Recordable(BUTTON, code))))
      ensures pointer == Some(device) && !down && code in old(buttons) ==> OthersSpared()
      ensures pointer == Some(device) && !down && code in old(buttons) && old(!Fenced() && OwnsButtons()) ==>
        Erases(code)
      ensures obey && pointer == Some(device) && !down && code in old(buttons) ==>
        old(!Fenced() && OwnsButtons() && JournalUp()) ==> ButtonReleased(code)
      ensures pointer != Some(device) ==> ForeignPassed(device, code, down)
    {
      hide Valid, Follows, CleanInactiveOwner, ReleasedCleanly, Unrecordable, Recordable, GuardianStands, DevicesStand,
        ButtonAdmitted;
      FollowsItself(Now());
      if armed { ArmedIsNotFenced(); }
      admitted := false;
      if pointer != Some(device) {
        OtherPointer(device, code, down);
      } else if !Fenced() {
        CleanMeans();
        admitted := OwnedButton(code, down, view, target, obey);
      }
    }

    // Any other pointer: a stranger's event passes through; another guardian's is swallowed.
    method OtherPointer(device: nat, code: uint32, down: bool)
      requires Valid() && pointer != Some(device)
      modifies this`world, this`foreignButtonActivity, this`held, this`erasures
      ensures Valid() && Kept() && world.out == old(world.out) && Poisons()
      ensures buttonOwnershipKnown ==> foreignButtonActivity
      ensures held == if device in pointers then old(held) else Input(old(held), code, device, down)
    {
      hide Inv, Poisons, Follows, Accounted, Chained, InTime, ChainsOk, OwnersSane, ReceiptOk, AccountOk, LeaseOk;
      ghost var before := Now();
      NothingTaken(held, erasures, held);
      if device in pointers {
        ForeignInput();
        if buttonOwnershipKnown { foreignButtonActivity := true; }
      } else {
        ForeignButton(device, code, down);
      }
      HoldsFollow(before, held, erasures, false);
    }

    // A button went down, was recorded and was forwarded; nothing else changed.
    twostate predicate ButtonAdmitted(code: uint32)
      reads this
    {
      && buttons == old(buttons) + {code} && world.out == old(world.out) + {Entry(BUTTON, code)}
      && pointer.Some? && held == old(held) + [Hold(code, pointer.value)]
      && admissions == old(admissions) + [Admission(now, deadline, granted, absolute)]
      && code !in old(world.j.held.buttons) && JournalUp() && world.j.held == old(world.j.held).With(BUTTON, code)
      && Beside() && foreignButtonActivity == old(foreignButtonActivity)
    }

    // An owned button came up: it left the ledger, and its intent is retired.
    twostate predicate ButtonReleased(code: uint32)
      reads this`buttons, this`world
    {
      && buttons == old(buttons) - {code} && Entry(BUTTON, code) !in world.out && JournalUp()
      && world.j.held == old(world.j.held).Without(BUTTON, code)
    }

    twostate predicate NoButtonAdmitted()
      reads this
    {
      buttons <= old(buttons) && world.out <= old(world.out) && admissions == old(admissions)
    }

    method OwnedButton(code: uint32, down: bool, view: bool, target: bool, obey: bool) returns (admitted: bool)
      requires Valid() && pointer.Some? && !Fenced()
      modifies this`armed, this`deadline, this`failed, this`keys, this`buttons, this`ownedModifiers, this`keysDown,
               this`modsDown, this`held, this`erasures, this`foreignButtonActivity, this`world, this`owners,
               this`admissions
      ensures Valid() && Kept() && LeaseKept()
      ensures if admitted then down && target && old(Stands(view)) && ButtonAdmitted(code) else NoButtonAdmitted()
      ensures (down || code !in old(buttons)) && !(down && target && old(Stands(view))) ==> !armed
      ensures !down && code !in old(buttons) && old(CleanInactiveOwner()) ==>
        world == old(world) && failed == old(failed)
      ensures !down && code in old(buttons) ==> OthersSpared() && (old(OwnsButtons()) ==> Erases(code))
      ensures obey && !down && code in old(buttons) && old(OwnsButtons() && JournalUp()) ==> ButtonReleased(code)
      ensures down && target && old(Stands(view)) ==>
        admitted || (Unrecordable(BUTTON, code) && !(obey && old(Recordable(BUTTON, code))))
    {
      hide Valid, Follows, Stands, Fenced, Unrecordable, Recordable, Erases, OthersSpared, ButtonAdmitted, LeaseKept,
        CleanInactiveOwner,
        OwnsButtons;
      if !down && code in buttons {
        ReleaseHeldButton(code, obey);
        admitted := false;
      } else {
        admitted := FreshButton(code, down, view, target, obey);
      }
    }

    // A button the guardian does not hold yet.
    method FreshButton(code: uint32, down: bool, view: bool, target: bool, obey: bool) returns (admitted: bool)
      requires Valid() && pointer.Some? && !Fenced()
      modifies this`armed, this`deadline, this`failed, this`keys, this`buttons, this`ownedModifiers, this`keysDown,
               this`modsDown, this`held, this`erasures, this`foreignButtonActivity, this`world, this`owners,
               this`admissions
      ensures Valid() && Kept() && LeaseKept()
      ensures if admitted then down && target && old(Stands(view)) && ButtonAdmitted(code) else NoButtonAdmitted()
      ensures !(down && target && old(Stands(view))) ==> !armed
      ensures !down && old(CleanInactiveOwner()) ==> world == old(world) && failed == old(failed)
      ensures down && target && old(Stands(view)) ==>
        admitted || (Unrecordable(BUTTON, code) && !(obey && old(Recordable(BUTTON, code))))
    {
      hide Stands, Fenced, Valid, Follows, Accounted, CleanInactiveOwner, ReleasedCleanly, Unrecordable, Recordable,
        OthersSpared, Undrainable, Releasable, Untouched;
      FollowsItself(Now());
      admitted := false;
      CleanMeans();
      if !down && CleanInactiveOwner() {
        return;
      }
      var ok := Allow(view);
      if !ok {
        return;
      }
      if !down || !target {
        Revoke(false);
        return;
      }
      ghost var before := Now();
      StandsIsArmed(view);
      admitted := OwnedButtonDown(code, obey);
      NothingTaken(before.held, before.erasures, held);
      HoldsFollow(before, held, erasures, false);
    }

    // The guardian's up of a button it holds: without exclusive ownership nothing is forwarded.
    method ReleaseHeldButton(code: uint32, obey: bool)
      requires Valid() && pointer.Some? && code in buttons
      modifies this`armed, this`deadline, this`failed, this`keys, this`buttons, this`ownedModifiers, this`keysDown,
               this`modsDown, this`held, this`erasures, this`foreignButtonActivity, this`world, this`owners
      ensures Valid() && Kept() && LeaseKept() && OthersSpared() && (old(OwnsButtons()) ==> Erases(code))
      ensures obey && old(OwnsButtons() && JournalUp()) ==> ButtonReleased(code)
      ensures buttons <= old(buttons) && world.out <= old(world.out)
    {
      hide Valid, Follows, Accounted, Undrainable, Releasable, Erases;
      FollowsItself(Now());
      if activeOwner.Some? && (!buttonOwnershipKnown || foreignButtonActivity) {
        Overlapped();
        Revoke(obey);
      } else {
        ghost var before := Now();
        OwnedButtonUp(code, obey);
        HoldsFollow(before, held, erasures, false);
      }
    }

    // The guardian's ordinary up: exclusive ownership makes it safe to forward.
    method OwnedButtonUp(code: uint32, obey: bool)
      requires Valid() && code in buttons && pointer.Some?
      requires activeOwner.Some? ==> buttonOwnershipKnown && !foreignButtonActivity
      modifies this`world, this`buttons, this`held, this`erasures
      ensures Valid() && HoldsKept() && OthersSpared() && buttons <= old(buttons) && world.out <= old(world.out)
      ensures Erases(code) && (obey && old(JournalUp()) ==> ButtonReleased(code))
    {
      hide ButtonsOk, LedgerOk, Accounted, Inv, Chained, JournalOk, ChainsOk, OwnersSane, ReceiptOk, LeaseOk;
      ButtonsAreOwn();
      var _ := ReleaseButton(code, obey);
    }

    // Where buttons are held without exclusive ownership, nothing may be drained.
    lemma Overlapped()
      requires Valid() && activeOwner.Some? && buttons != {} && !(buttonOwnershipKnown && !foreignButtonActivity)
      ensures Undrainable()
    {}

    lemma ButtonsAreOwn()
      requires Valid()
      ensures activeOwner.None? ==> buttons == {}
      ensures OwnsButtons() ==> forall h <- held :: pointer == Some(h.device)
    {}

    method OwnedButtonDown(code: uint32, obey: bool) returns (admitted: bool)
      requires Valid() && armed && now < deadline && pointer.Some?
      modifies this`world, this`buttons, this`held, this`admissions
      ensures Valid()
      ensures if admitted then ButtonAdmitted(code) else NoButtonAdmitted() && held == old(held)
      ensures !admitted ==> Unrecordable(BUTTON, code) && !(obey && old(Recordable(BUTTON, code)))
    {
      hide LeaseOk, Inv, Chained, JournalOk, LedgerOk, ChainsOk, OwnersSane, ReceiptOk, ButtonsOk, Unrecordable,
        Recordable, ButtonAdmitted, NoButtonAdmitted;
      admitted := RecordButton(code, obey);
    }

    method RecordButton(code: uint32, obey: bool) returns (admitted: bool)
      requires JournalOk() && LedgerOk() && ButtonsOk() && LeaseOk() && DevicesOk()
      requires armed && now < deadline && pointer.Some?
      modifies this`world, this`buttons, this`held, this`admissions
      ensures JournalOk() && LedgerOk() && ButtonsOk() && LeaseOk()
      ensures if admitted then ButtonAdmitted(code) else NoButtonAdmitted() && held == old(held)
      ensures !admitted ==> buttons == old(buttons)
      ensures !admitted ==> Unrecordable(BUTTON, code) && !(obey && old(Recordable(BUTTON, code)))
    {
      hide LeaseOk, Inv, JournalOk, ButtonsOk, Unrecordable, Recordable, SourceOk;
      admitted := PendingIntent(BUTTON, code, obey);
      if !admitted {
        return;
      }
      ButtonForwarded(code);
      Admit();
    }

    // The press reaches the aggregate list and enters the ledger.
    method ButtonForwarded(code: uint32)
      requires ButtonsOk() && pointer.Some?
      requires forall e <- world.out :: e in orphans || InLedger(e) || e == Entry(BUTTON, code)
      modifies this`buttons, this`held
      ensures ButtonsOk() && LedgerOk()
      ensures buttons == old(buttons) + {code} && held == old(held) + [Hold(code, pointer.value)]
    {
      buttons := buttons + {code};
      held := Input(held, code, pointer.value, true);
    }

    // ---- Requests of the guardian ----

    // A request that finds the lease broken ends it first.
    method Fence(view: bool, obey: bool)
      requires Valid()
      modifies this`armed, this`deadline, this`failed, this`keys, this`buttons, this`ownedModifiers, this`keysDown,
               this`modsDown, this`held, this`erasures, this`foreignButtonActivity, this`world, this`owners
      ensures Valid() && Kept() && LeaseKept()
      ensures armed ==> Stands(view) && old(Stands(view))
      ensures old(!armed || Stands(view)) ==> unchanged(this)
      ensures world.out <= old(world.out)
      ensures obey && old(Releasable() && !Undrainable()) ==> Releasable() && !Undrainable()
    {
      hide Valid, Follows, Undrainable, Untouched, Releasable;
      FollowsItself(Now());
      InScopeStands(view);
      if armed && !InScope(view) { Revoke(obey); }
    }

    // guardianOwner(): the ledger of a guardian, if it has one.
    method GuardianOwner(proc: Proc) returns (id: Option<nat>)
      ensures id.Some? ==> id.value in owners && owners[id.value].guardian == proc
      ensures id.None? ==> forall i :: i in owners ==> owners[i].guardian != proc
    {
      if i :| i in owners && owners[i].guardian == proc {
        id := Some(i);
      } else {
        id := None;
      }
    }

    // Is this the only live device its guardian could mean?
    predicate OnlyKeyboard(k: nat, pid: nat)
      reads this`keyboards
    {
      && k in keyboards && !keyboards[k].dead && keyboards[k].pid == pid
      && forall d :: d in keyboards && !keyboards[d].dead && keyboards[d].pid == pid ==> d == k
    }

    predicate OnlyPointer(p: nat, client: nat)
      reads this`pointers
    {
      && p in pointers && !pointers[p].dead && pointers[p].client == client
      && forall d :: d in pointers && !pointers[d].dead && pointers[d].client == client ==> d == p
    }

    predicate InputHeld(unclear: bool)
      reads this`held, this`keysDown
    {
      unclear || held != [] || keysDown != {}
    }

    predicate SameDevices(o: Owner, k: nat, p: nat)
      requires k in keyboards
      reads this`keyboards
    {
      && (o.keyboard.None? || o.keyboard == Some(k)) && (o.pointer.None? || o.pointer == Some(p))
      && (o.inventory.None? || o.client == Some(keyboards[k].client))
    }

    // arm. view: the snapshot's scene still stands; onOutput: the pointer is bound to its
    // output; unclear: the keyboards could not all be inspected; nonce: a new ledger id.
    method Arm(fd: nat, absoluteNs: int, leaseMs: int, snapshot: nat, k: nat, p: nat,
               view: bool, onOutput: bool, unclear: bool, nonce: nat) returns (ok: bool)
      requires Valid() && fd in peers && nonce !in owners
      modifies this`armed, this`deadline, this`granted, this`absolute, this`token, this`guardianFD, this`keyboard,
               this`pointer, this`activeOwner, this`owners, this`chains, this`snapshots, this`buttonOwnershipKnown,
               this`foreignButtonActivity
      ensures Valid() && Kept()
      ensures ok <==>
        old(!failed && !armed && Armable(fd, snapshot, k, p, view, onOutput, unclear))
          && BoundedDeadline(now, absoluteNs, leaseMs) != 0
      ensures ok ==> !old(armed) && armed && deadline == BoundedDeadline(now, absoluteNs, leaseMs) > now
      ensures ok ==> absolute == absoluteNs && granted == now && token == snapshot && guardianFD == Some(fd)
      ensures ok ==> keyboard == Some(k) && pointer == Some(p) && held == [] && keysDown == {}
      ensures ok ==>
        activeOwner.Some? && activeOwner.value in owners && owners[activeOwner.value].guardian == peers[fd].proc
      ensures ok ==> buttonOwnershipKnown && !foreignButtonActivity
      ensures !ok ==>
        armed == old(armed) && deadline == old(deadline) && guardianFD == old(guardianFD) && token == old(token)
      ensures !ok ==>
        granted == old(granted) && absolute == old(absolute) && owners == old(owners) && activeOwner == old(activeOwner)
    {
      hide Valid, Follows, Admissible, BoundedDeadline, Armable;
      FollowsItself(Now());
      ok := false;
      var expiry := BoundedDeadline(now, absoluteNs, leaseMs);
      LeaseIsBounded(now, absoluteNs, leaseMs);
      if expiry == 0 || failed || armed {
        return;
      }
      var id, o := CheckArm(fd, snapshot, k, p, view, onOutput, unclear, nonce);
      if o.None? {
        return;
      }
      ArmOwner(id, o.value, k, p, fd, snapshot, absoluteNs, expiry);
      ok := true;
    }

    lemma AdmissibleIsClean(id: nat, o: Owner)
      requires Admissible(id, o)
      ensures !o.Lost() && !o.reconciled
    {}

    method ArmOwner(id: nat, o: Owner, k: nat, p: nat, fd: nat, snapshot: nat, absoluteNs: int, expiry: int)
      requires Valid() && !armed && !failed && k in keyboards && p in pointers && held == [] && Admissible(id, o)
      requires expiry <= absoluteNs && expiry <= now + MAXIMUM
      modifies this`owners, this`chains, this`activeOwner, this`keyboard, this`pointer, this`buttonOwnershipKnown,
               this`foreignButtonActivity, this`guardianFD, this`token, this`snapshots, this`armed, this`deadline,
               this`granted, this`absolute
      ensures Valid() && Kept() && armed && deadline == expiry && absolute == absoluteNs && granted == now
      ensures guardianFD == Some(fd) && token == snapshot && buttonOwnershipKnown && !foreignButtonActivity
      ensures activeOwner == Some(id) && keyboard == Some(k) && pointer == Some(p)
      ensures id in owners && owners[id].guardian == o.guardian
    {
      hide Valid, Follows, Admissible;
      AdmissibleIsClean(id, o);
      Switch(id, o, k, p);
      BindLease(fd, snapshot, absoluteNs, expiry);
    }

    method BindLease(fd: nat, snapshot: nat, absoluteNs: int, expiry: int)
      requires Valid() && activeOwner.Some? && activeOwner.value in owners && held == []
      requires !owners[activeOwner.value].Lost() && !owners[activeOwner.value].empty
      requires expiry <= absoluteNs && expiry <= now + MAXIMUM
      modifies this`buttonOwnershipKnown, this`foreignButtonActivity, this`guardianFD, this`token, this`snapshots,
               this`armed, this`deadline, this`granted, this`absolute
      ensures Valid() && armed && deadline == expiry && absolute == absoluteNs && granted == now
      ensures buttonOwnershipKnown && !foreignButtonActivity
      ensures guardianFD == Some(fd) && token == snapshot && snapshots == old(snapshots) - {snapshot}
    {
      hide Valid;
      BindConnection(fd, snapshot);
      StartLease(absoluteNs, expiry);
    }

    // May this account become the active one? It is on record, or it is new and blank.
    ghost predicate Admissible(id: nat, o: Owner)
      reads this`owners
    {
      && !o.Lost() && !o.reconciled
      && (id in owners ==> o == owners[id])
      && (id !in owners ==>
            && o.recovery.None? && o.adoptions == map[] && o.capability.None?
            && forall i :: i in owners ==> owners[i].guardian != o.guardian)
    }

    // What arm demands: a guardian whose account is not lost, a snapshot of the last 250 ms whose
    // scene stands, the guardian's only live keyboard and its only live pointer, the same as before
    // and on the right output, no input held by anyone, and room for a ledger if it has none.
    ghost predicate Armable(fd: nat, snapshot: nat, k: nat, p: nat, view: bool, onOutput: bool, unclear: bool)
      reads this`peers, this`owners, this`keyboards, this`pointers, this`snapshots, this`now, this`held, this`keysDown
      requires fd in peers
    {
      var proc := peers[fd].proc;
      && (forall i :: i in owners && owners[i].guardian == proc ==>
            !owners[i].revoked && !owners[i].retired && !owners[i].unknown && !owners[i].inputFenced)
      && snapshot in snapshots && now - snapshots[snapshot] < 250_000_000 && view && onOutput && !unclear
      && held == [] && keysDown == {}
      && k in keyboards && !keyboards[k].dead && keyboards[k].pid == proc.pid
      && (forall d :: d in keyboards && !keyboards[d].dead && d != k ==> keyboards[d].pid != proc.pid)
      && p in pointers && !pointers[p].dead && pointers[p].client == keyboards[k].client
      && (forall d :: d in pointers && !pointers[d].dead && d != p ==> pointers[d].client != keyboards[k].client)
      && (forall i :: i in owners && owners[i].guardian == proc ==> SamePair(owners[i], k, p, keyboards[k].client))
      && ((forall i :: i in owners ==> owners[i].guardian != proc) ==> |owners| < 4096)
    }

    // An owner that had devices keeps them, and one with an inventory its client.
    static ghost predicate SamePair(o: Owner, k: nat, p: nat, client: nat) {
      && (o.keyboard.Some? ==> o.keyboard.value == k) && (o.pointer.Some? ==> o.pointer.value == p)
      && (o.inventory.Some? ==> o.client.Some? && o.client.value == client)
    }

    // The checks of arm past the deadline, in the order they are made.
    method CheckArm(fd: nat, snapshot: nat, k: nat, p: nat, view: bool, onOutput: bool, unclear: bool, nonce: nat)
      returns (id: nat, o: Option<Owner>)
      requires Valid() && fd in peers && nonce !in owners
      ensures o.Some? <==> Armable(fd, snapshot, k, p, view, onOutput, unclear)
      ensures o.Some? ==>
        && Admissible(id, o.value) && o.value.guardian == peers[fd].proc
        && k in keyboards && p in pointers && held == [] && keysDown == {}
    {
      hide Valid;
      id, o := nonce, None;
      var proc := peers[fd].proc;
      var known := GuardianOwner(proc);
      if known.Some? {
        OneLedger(known.value);
        if owners[known.value].Lost() {
          return;
        }
      }
      if snapshot !in snapshots || now - snapshots[snapshot] >= MAXIMUM || !view || !OnlyKeyboard(k, proc.pid) {
        return;
      }
      OnlyKeyboardKnown(k, proc.pid);
      if !OnlyPointer(p, keyboards[k].client) || !onOutput || InputHeld(unclear) {
        return;
      }
      OnlyPointerKnown(p, keyboards[k].client);
      if known.Some? {
        if SameDevices(owners[known.value], k, p) {
          id, o := known.value, Some(owners[known.value]);
        }
      } else if |owners| < 4096 {
        o := Some(Unregistered(proc, peers[fd].uid));
      }
    }

    lemma OneLedger(id: nat)
      requires Valid() && id in owners
      ensures forall i :: i in owners && owners[i].guardian == owners[id].guardian ==> i == id
      ensures owners[id].reconciled ==> owners[id].revoked
    {}

    lemma OnlyKeyboardKnown(k: nat, pid: nat)
      requires OnlyKeyboard(k, pid)
      ensures k in keyboards
    {}

    lemma OnlyPointerKnown(p: nat, client: nat)
      requires OnlyPointer(p, client)
      ensures p in pointers
    {}

    // The account of an owner that is about to be armed with these devices.
    static function ToArm(o: Owner, k: nat, p: nat): Owner {
      o.(keyboard := Some(k), pointer := Some(p), empty := false, ack := false, everArmed := true)
    }

    // The owner and its devices become the active ones.
    method SwitchOwner(id: nat, o: Owner, k: nat, p: nat)
      requires Valid() && !armed && !failed && k in keyboards && p in pointers && held == [] && Admissible(id, o)
      modifies this`owners, this`chains, this`activeOwner, this`keyboard, this`pointer
      ensures Valid() && OwnersKept() && Lengthened(old(owners), old(chains), chains)
      ensures Founded(old(owners), owners, chains, iset{}) && owners == old(owners)[id := ToArm(o, k, p)]
      ensures activeOwner == Some(id) && keyboard == Some(k) && pointer == Some(p)
    {
      hide Inv, AllAdvance, Lengthened, Founded, AllChained, Sane, JournalOk, LedgerOk, ReceiptOk, LeaseOk, ChainsOk,
        ButtonsOk, DevicesOk, StartOk, OwnersSane, OwnersOk, Admissible, InTime, Chained;
      AdmissibleIsClean(id, o);
      ValidParts();
      EnterOwner(id, o, ToArm(o, k, p));
      Activate(id, o, k, p);
    }

    method Activate(id: nat, o: Owner, k: nat, p: nat)
      requires OwnersSane() && UpsOk() && !armed && !failed && k in keyboards && p in pointers && held == []
      requires id in owners && owners[id] == ToArm(o, k, p) && !o.Lost() && !o.reconciled
      modifies this`activeOwner, this`keyboard, this`pointer
      ensures OwnersOk() && ButtonsOk() && DevicesOk() && StartOk()
      ensures activeOwner == Some(id) && keyboard == Some(k) && pointer == Some(p)
    {
      hide Sane, OwnOnly;
      activeOwner, keyboard, pointer := Some(id), Some(k), Some(p);
    }

    lemma ValidParts()
      requires Valid()
      ensures UpsOk() && OwnersSane()
    {}

    method Switch(id: nat, o: Owner, k: nat, p: nat)
      requires Valid() && !armed && !failed && k in keyboards && p in pointers && held == [] && Admissible(id, o)
      modifies this`owners, this`chains, this`activeOwner, this`keyboard, this`pointer
      ensures Valid() && Kept() && owners == old(owners)[id := ToArm(o, k, p)]
      ensures activeOwner == Some(id) && keyboard == Some(k) && pointer == Some(p)
    {
      hide Valid, AllAdvance, Lengthened, Founded, Follows, Admissible;
      ghost var before := Now();
      SwitchOwner(id, o, k, p);
      ChainsFollow(before, owners, chains, iset{});
    }

    // The connection and its snapshot are bound. No button is held, so from here on all of them
    // are the owned pointer's.
    method BindConnection(fd: nat, snapshot: nat)
      requires Valid() && activeOwner.Some? && held == []
      modifies this`buttonOwnershipKnown, this`foreignButtonActivity, this`guardianFD, this`token, this`snapshots
      ensures buttonOwnershipKnown && !foreignButtonActivity
      ensures Valid() && guardianFD == Some(fd) && token == snapshot && snapshots == old(snapshots) - {snapshot}
    {
      hide Inv, AllChained, Sane, InTime, JournalOk, LedgerOk, ReceiptOk, OwnersOk, ChainsOk, LeaseOk;
      KnownDevices();
      guardianFD, token, snapshots := Some(fd), snapshot, snapshots - {snapshot};
      buttonOwnershipKnown, foreignButtonActivity := true, false;
    }

    lemma KnownDevices()
      requires OwnersOk()
      ensures activeOwner.Some? ==> activeOwner.value in owners && keyboard.Some? && pointer.Some?
    {}

    method StartLease(absoluteNs: int, expiry: int)
      requires Valid() && activeOwner.Some? && activeOwner.value in owners
      requires !owners[activeOwner.value].Lost() && !owners[activeOwner.value].empty
      requires expiry <= absoluteNs && expiry <= now + MAXIMUM
      modifies this`armed, this`deadline, this`granted, this`absolute
      ensures Valid() && armed && deadline == expiry && absolute == absoluteNs && granted == now
    {
      hide Inv, AllChained, Sane, InTime, JournalOk, LedgerOk, ReceiptOk, ButtonsOk, ChainsOk;
      armed, deadline, granted, absolute := true, expiry, now, absoluteNs;
    }

    // Enters an armed owner's new account, in a ledger of its own if it has none.
    method EnterOwner(id: nat, ghost was: Owner, o: Owner)
      requires ChainsOk() && OwnersSane() && Admissible(id, was)
      requires o == was.(keyboard := o.keyboard, pointer := o.pointer, empty := false, ack := false, everArmed := true)
      modifies this`owners, this`chains
      ensures Lengthened(old(owners), old(chains), chains) && Founded(old(owners), owners, chains, iset{})
      ensures OwnersKept() && ChainsOk() && OwnersSane() && owners == old(owners)[id := o]
    {
      hide Sane, AllChained, AllAdvance, Advances, Chained;
      ArmedAdvances(was, o);
      if id in owners {
        OwnerReplaced(owners, chains, exited, id, o);
        owners := owners[id := o];
      } else {
        NoRecovery(o, Chain([], []), exited);
        OwnerEntered(owners, chains, exited, id, o, Chain([], []));
        owners, chains := owners[id := o], chains[id := Chain([], [])];
      }
    }

    lemma ArmedAdvances(was: Owner, o: Owner)
      requires o == was.(keyboard := o.keyboard, pointer := o.pointer, empty := false, ack := false, everArmed := true)
      ensures Advances(was, o)
    {}

    // renew: only the same connection, with the same token, in a live scope, moves the deadline.
    method Renew(fd: nat, absoluteNs: int, leaseMs: int, snapshot: nat, view: bool) returns (ok: bool)
      requires Valid()
      modifies this`deadline, this`granted, this`absolute
      ensures Valid() && armed == old(armed)
      ensures ok <==>
        guardianFD == Some(fd) && snapshot == token && old(Stands(view))
          && BoundedDeadline(now, absoluteNs, leaseMs) != 0
      ensures ok ==>
        deadline == BoundedDeadline(now, absoluteNs, leaseMs) > now && granted == now && absolute == absoluteNs
      ensures !ok ==> unchanged(this)
    {
      hide Inv, Chained, JournalOk, LedgerOk, ReceiptOk, ButtonsOk, OwnersSane, ChainsOk, InTime, AccountOk,
        BoundedDeadline;
      LeaseIsBounded(now, absoluteNs, leaseMs);
      var expiry := BoundedDeadline(now, absoluteNs, leaseMs);
      InScopeStands(view);
      ok := expiry != 0 && !failed && guardianFD == Some(fd) && snapshot == token && InScope(view);
      if ok { deadline, granted, absolute := expiry, now, absoluteNs; }
    }

    // Both requests first end a lease that no longer stands.
    method ArmFenced(fd: nat, absoluteNs: int, leaseMs: int, snapshot: nat, k: nat, p: nat,
                     view: bool, onOutput: bool, unclear: bool, nonce: nat) returns (ok: bool)
      requires Valid() && fd in peers && nonce !in owners
      modifies this`armed, this`deadline, this`failed, this`keys, this`buttons, this`ownedModifiers, this`keysDown,
               this`modsDown, this`held, this`erasures, this`foreignButtonActivity, this`world, this`owners,
               this`granted, this`absolute, this`token, this`guardianFD, this`keyboard, this`pointer,
               this`activeOwner, this`chains, this`snapshots, this`buttonOwnershipKnown
      ensures Valid() && Kept()
      ensures ok ==>
        armed && deadline == BoundedDeadline(now, absoluteNs, leaseMs) > now && granted == now && absolute == absoluteNs
      ensures ok ==> guardianFD == Some(fd) && token == snapshot && !(old(armed) && old(Stands(view)))
      ensures !ok ==> LeaseKept()
      ensures old(!armed && !failed && nonce !in owners && Armable(fd, snapshot, k, p, view, onOutput, unclear)) ==>
        (ok <==> BoundedDeadline(now, absoluteNs, leaseMs) != 0)
    {
      hide Valid, Follows, BoundedDeadline, Armable;
      Fence(view, false);
      ghost var first, before := old(Now()), Now();
      if nonce in owners {
        return false;
      }
      ok := Arm(fd, absoluteNs, leaseMs, snapshot, k, p, view, onOutput, unclear, nonce);
      FollowsOn(first, before, Now(), false, iset{});
    }

    method RenewFenced(fd: nat, absoluteNs: int, leaseMs: int, snapshot: nat, view: bool) returns (ok: bool)
      requires Valid()
      modifies this`armed, this`deadline, this`failed, this`keys, this`buttons, this`ownedModifiers, this`keysDown,
               this`modsDown, this`held, this`erasures, this`foreignButtonActivity, this`world, this`owners,
               this`granted, this`absolute
      ensures Valid() && Kept()
      ensures ok <==>
        old(guardianFD == Some(fd) && snapshot == token && Stands(view))
          && BoundedDeadline(now, absoluteNs, leaseMs) != 0
      ensures ok ==> armed && old(armed)
      ensures ok ==> guardianFD == old(guardianFD) && token == old(token) && activeOwner == old(activeOwner)
      ensures ok ==>
        deadline == BoundedDeadline(now, absoluteNs, leaseMs) > now && granted == now && absolute == absoluteNs
      ensures !ok ==> LeaseKept()
    {
      hide Valid, Follows, BoundedDeadline;
      Fence(view, false);
      ok := Renew(fd, absoluteNs, leaseMs, snapshot, view);
    }

    // ---- Cleanup ----

    // The part of status() a guardian relies on.
    function Status(ok: bool): Reply
      reads this`armed, this`failed, this`keys, this`buttons, this`ownedModifiers
    {
      Reply(ok, armed, |keys|, |buttons|, !armed && !failed && LedgersEmpty())
    }

    // A reply tells the state of the lease, how many keys and buttons are owned, and whether nothing
    // is.
    ghost predicate Reports(r: Reply)
      reads this`armed, this`failed, this`keys, this`buttons, this`ownedModifiers
    {
      && r.armed == armed && r.keys == |keys| && r.buttons == |buttons|
      && (r.acknowledged <==> !armed && !failed && keys == {} && buttons == {} && !ownedModifiers)
    }

    // release_all without a tag, and stop.
    method ReleaseAll(view: bool, obey: bool) returns (r: Reply)
      requires Valid()
      modifies this`armed, this`deadline, this`failed, this`keys, this`buttons, this`ownedModifiers, this`keysDown,
               this`modsDown, this`held, this`erasures, this`foreignButtonActivity, this`world, this`owners
      ensures Valid() && Kept() && LeaseKept()
      ensures r == Status(r.ok) && Reports(r) && !armed && (r.ok <==> !failed)
      ensures obey && old(Releasable() && !Undrainable()) ==> r.ok
      ensures r.ok ==> r.acknowledged && world.out <= orphans
    {
      hide Valid, Follows, Undrainable, Untouched, Releasable;
      Fence(view, obey);
      ghost var first, before := old(Now()), Now();
      Revoke(obey);
      FollowsOn(first, before, Now(), false, iset{});
      r := Status(!failed);
    }

    // The armed connection, naming its own live process and a well-formed command.
    predicate Entitled(fd: nat, tag: Tag)
      requires fd in peers
      reads this`guardianFD, this`peers, this`exited
    {
      guardianFD == Some(fd) && ReleaseCommandID(tag.command) && peers[fd].proc.start == tag.start
        && peers[fd].proc !in exited
    }

    // The same, as the contracts say it.
    ghost predicate MayRelease(fd: nat, tag: Tag)
      reads this`guardianFD, this`peers, this`exited
    {
      && guardianFD == Some(fd) && fd in peers && CommandID(tag.command)
      && peers[fd].proc.start == tag.start && !(peers[fd].proc in exited)
    }

    lemma EntitledMeans(fd: nat, tag: Tag)
      requires fd in peers
      ensures Entitled(fd, tag) <==> MayRelease(fd, tag)
    {
      CommandIDMeans(tag.command);
    }

    // release_all with a tag: refused unless it comes from the armed connection and names its
    // own live process; otherwise it leaves a receipt under its command id.
    method ReleaseAllTagged(fd: nat, tag: Tag, view: bool, obey: bool) returns (r: Reply)
      requires Valid() && fd in peers
      modifies this`armed, this`deadline, this`failed, this`keys, this`buttons, this`ownedModifiers, this`keysDown,
               this`modsDown, this`held, this`erasures, this`foreignButtonActivity, this`world, this`owners,
               this`receipt, this`completed
      ensures Valid() && Kept() && LeaseKept()
      ensures Reports(r)
      ensures r.ok ==> r == Status(true) && r.acknowledged && !armed && world.out <= orphans
      ensures r.ok ==> tag.command in completed && completed[tag.command] == Completion(true, false)
      ensures MayRelease(fd, tag) ==>
        receipt == Some(Receipt(peers[fd].proc, tag.command, now, !failed && LedgersEmpty())) && r == Status(!failed)
          && !armed
      ensures obey && MayRelease(fd, tag) && old(Releasable() && !Undrainable()) ==> r.ok
      ensures !MayRelease(fd, tag) ==> !r.ok && completed == old(completed) && receipt == old(receipt)
      ensures completed == old(completed)
        || (tag.command in completed && completed == old(completed)[tag.command := completed[tag.command]])
    {
      hide Valid, Follows, ReleaseCommandID, Undrainable, Untouched, Entitled, MayRelease, Stands, Releasable;
      EntitledMeans(fd, tag);
      Fence(view, obey);
      if !Entitled(fd, tag) {
        return Status(false);
      }
      ghost var first, before := old(Now()), Now();
      r := CleanUp(peers[fd].proc, tag.command, obey);
      FollowsOn(first, before, Now(), false, iset{});
    }

    // The receipt is opened before anything is released, and closed with what came of it.
    method CleanUp(proc: Proc, command: string, obey: bool) returns (r: Reply)
      requires Valid()
      modifies this`armed, this`deadline, this`failed, this`keys, this`buttons, this`ownedModifiers, this`keysDown,
               this`modsDown, this`held, this`erasures, this`foreignButtonActivity, this`world, this`owners,
               this`receipt, this`completed
      ensures Valid() && Kept() && !armed && r == Status(!failed)
      ensures !failed ==> LedgersEmpty()
      ensures obey && old(Releasable() && !Undrainable()) ==> !failed
      ensures receipt == Some(Receipt(proc, command, now, !failed && LedgersEmpty()))
      ensures command in completed && completed == old(completed)[command := completed[command]]
      ensures !failed ==> completed[command] == Completion(true, false) && world.out <= orphans
    {
      hide Valid, Follows, Undrainable, Untouched, Releasable;
      OpenReceipt(proc, command);
      Revoke(obey);
      CloseReceipt(proc, command);
      r := Status(!failed);
    }

    method OpenReceipt(proc: Proc, command: string)
      requires Valid()
      modifies this`receipt
      ensures Valid()
    {
      hide Inv, AllChained, Sane, InTime, JournalOk, LedgerOk, OwnersOk, ChainsOk, LeaseOk, ButtonsOk, StartOk,
        DevicesOk;
      receipt := Some(Receipt(proc, command, 0, false));
    }

    method CloseReceipt(proc: Proc, command: string)
      requires Valid() && (!failed ==> LedgersEmpty() && world.out <= orphans)
      modifies this`receipt, this`completed
      ensures Valid() && command in completed && completed == old(completed)[command := completed[command]]
      ensures receipt == Some(Receipt(proc, command, now, !failed && LedgersEmpty()))
      ensures !failed ==> completed[command] == Completion(true, false)
    {
      hide Inv, AllChained, Sane, InTime, JournalOk, LedgerOk, OwnersOk, ChainsOk, LeaseOk, ButtonsOk, StartOk,
        DevicesOk;
      var acknowledged := !failed && LedgersEmpty();
      receipt := Some(Receipt(proc, command, now, acknowledged));
      completed := completed[command := Completion(acknowledged, !(world.out <= orphans))];
    }

    // A completed receipt of the last half second, under this command, of this very process.
    ghost predicate Answers(fd: nat, tag: Tag)
      requires fd in peers
      reads this`receipt, this`now, this`peers, this`exited
    {
      && receipt.Some? && 0 < receipt.value.completed <= now <= receipt.value.completed + 500_000_000
      && CommandID(tag.command) && receipt.value.command == tag.command
      && receipt.value.proc == peers[fd].proc && peers[fd].proc.start == tag.start && peers[fd].proc !in exited
    }

    // release_status: read-only, and only for the process and the command of a fresh receipt.
    method ReleaseStatus(fd: nat, tag: Tag) returns (r: Reply)
      requires Valid() && fd in peers
      ensures r.ok <==> Answers(fd, tag)
      ensures r.ok ==> receipt.Some? && r.acknowledged == receipt.value.acknowledged
      ensures r.ok ==>
        tag.command in completed && r == Status(true).(acknowledged := completed[tag.command].acknowledged)
    {
      hide Inv, AllChained, Sane, InTime, JournalOk, LedgerOk, OwnersOk, ChainsOk, LeaseOk, ButtonsOk, StartOk,
        DevicesOk, ReleaseCommandID, CommandID;
      CommandIDMeans(tag.command);
      var proc := peers[fd].proc;
      if receipt.None? {
        return Status(false);
      }
      var last := receipt.value;
      if last.completed <= 0 || now - last.completed < 0 || now - last.completed > RECEIPT_LIFETIME
        || !ReleaseCommandID(tag.command) || tag.command != last.command || tag.start != last.proc.start
        || proc.pid != last.proc.pid || proc.start != tag.start || proc in exited
      {
        return Status(false);
      }
      r := Status(true).(acknowledged := last.acknowledged);
    }

    // A connection ends; losing the armed one is a revocation.
    method Drop(fd: nat, obey: bool)
      requires Valid()
      modifies this`armed, this`deadline, this`failed, this`keys, this`buttons, this`ownedModifiers, this`guardianFD,
               this`peers, this`keysDown, this`modsDown, this`held, this`erasures, this`foreignButtonActivity,
               this`world, this`owners
      ensures Valid() && Kept() && LeaseKept()
      ensures peers == old(peers) - {fd}
      ensures old(guardianFD) == Some(fd) ==>
        !armed && guardianFD == None && (!failed ==> LedgersEmpty() && world.out <= orphans)
      ensures obey && old(guardianFD == Some(fd) && Releasable() && !Undrainable()) ==> !failed
    {
      hide Valid, Follows, Undrainable, Untouched, Releasable;
      FollowsItself(Now());
      if guardianFD == Some(fd) {
        Revoke(obey);
        guardianFD := None;
      }
      peers := peers - {fd};
    }

    // ---- Requests of the recovery process ----

    // The asking process lives, and the guardian's ledger is its own already or may be opened:
    // there is room, nothing has failed, and the guardian is not armed yet.
    ghost predicate Capturable(fd: nat, guardian: Proc)
      requires fd in peers
      reads this`peers, this`exited, this`owners, this`failed, this`guardianFD
    {
      && peers[fd].proc !in exited
      && (forall i :: i in owners && owners[i].guardian == guardian ==>
            owners[i].recovery == Some(peers[fd].proc) && owners[i].recoveryUid == peers[fd].uid)
      && ((forall i :: i in owners ==> owners[i].guardian != guardian) ==>
            && |owners| < 4096 && !failed
            && !(guardianFD.Some? && guardianFD.value in peers && peers[guardianFD.value].proc.pid == guardian.pid))
    }

    // owner_capture: nonce and capability are new random values.
    method Capture(fd: nat, guardian: Proc, uid: nat, identified: bool, nonce: nat, capability: nat) returns (ok: bool)
      requires Valid() && fd in peers && nonce !in owners
      modifies this`owners, this`chains
      ensures Valid() && Follows(old(Now()), Now(), false, iset{(nonce, peers[fd].proc)})
      ensures ok <==> identified && old(Capturable(fd, guardian))
      ensures ok ==>
        exists id :: id in owners && owners[id].guardian == guardian && owners[id].recovery == Some(peers[fd].proc)
      ensures owners == old(owners) || (nonce in owners && owners == old(owners)[nonce := owners[nonce]]
        && chains == old(chains)[nonce := Chain([peers[fd].proc], [])])
    {
      hide Valid, Follows;
      ghost var before := Now();
      FollowsItself(before);
      FollowsLoosely(before, before, false, false, iset{}, iset{(nonce, peers[fd].proc)});
      var peer := peers[fd];
      if peer.proc in exited || !identified {
        return false;
      }
      var known := GuardianOwner(guardian);
      if known.Some? { OneLedger(known.value); }
      if known.None? {
        if |owners| >= 4096 || failed ||
          (guardianFD.Some? && guardianFD.value in peers && peers[guardianFD.value].proc.pid == guardian.pid)
        {
          return false;
        }
        EnterCaptured(nonce, Captured(guardian, uid, peer.proc, peer.uid, capability), peer.proc, peer.uid, capability);
        known := Some(nonce);
      }
      ok := owners[known.value].recovery == Some(peer.proc) && owners[known.value].recoveryUid == peer.uid;
    }

    method EnterCaptured(id: nat, o: Owner, recovery: Proc, recoveryUid: nat, capability: nat)
      requires Valid() && id !in owners && o == Captured(o.guardian, o.guardianUid, recovery, recoveryUid, capability)
      requires forall i :: i in owners ==> owners[i].guardian != o.guardian
      modifies this`owners, this`chains
      ensures Valid() && Follows(old(Now()), Now(), false, iset{(id, recovery)})
      ensures owners == old(owners)[id := o] && chains == old(chains)[id := Chain([recovery], [])]
    {
      hide Inv, Follows, AllChained, Sane, AllAdvance, InTime, JournalOk, LedgerOk, ReceiptOk, LeaseOk, ButtonsOk,
        StartOk, DevicesOk, ChainOf;
      ghost var before := Now();
      CaptureStartsChain(o.guardian, o.guardianUid, recovery, recoveryUid, capability, exited);
      OwnerEntered(owners, chains, exited, id, o, Chain([recovery], []));
      owners, chains := owners[id := o], chains[id := Chain([recovery], [])];
      ChainsFollow(before, owners, chains, iset{(id, recovery)});
    }

    // owner_reconnect: adoption fences the guardian's input. It neither releases anything nor
    // clears evidence.
    method OwnerReconnect(fd: nat, id: nat, claim: Claim, available: bool) returns (ok: bool)
      requires Valid() && fd in peers
      modifies this`owners, this`chains, this`armed
      ensures Valid() && Kept() && (armed ==> old(armed))
      ensures ok <==>
        old(peers[fd].proc !in exited && id in owners
          && Reconnect(owners[id], claim, peers[fd].proc, peers[fd].uid, exited, available).Some?)
      ensures ok ==>
        id in owners && owners[id].inputFenced && ReconnectConfirmed(owners[id], claim, peers[fd].proc, peers[fd].uid)
      ensures ok ==> id in old(owners) && id in old(chains) && claim.command !in old(owners)[id].adoptions
      ensures ok ==>
        claim.previous in exited && chains == old(chains)[id := Grown(old(chains)[id], claim.command, peers[fd].proc)]
      ensures ok ==> activeOwner != Some(id) || !armed
      ensures !ok ==> owners == old(owners) && chains == old(chains) && armed == old(armed)
    {
      hide Valid, Follows, AllAdvance, Lengthened, Founded;
      FollowsItself(Now());
      if peers[fd].proc in exited || id !in owners {
        return false;
      }
      var o := Reconnect(owners[id], claim, peers[fd].proc, peers[fd].uid, exited, available);
      if o.None? {
        return false;
      }
      ghost var before := Now();
      Adopt(fd, id, claim, available, o.value);
      ChainsFollow(before, owners, chains, iset{});
      ok := true;
    }

    method Adopt(fd: nat, id: nat, claim: Claim, available: bool, o: Owner)
      requires Valid() && fd in peers && id in owners && peers[fd].proc !in exited
      requires Reconnect(owners[id], claim, peers[fd].proc, peers[fd].uid, exited, available) == Some(o)
      modifies this`owners, this`chains, this`armed
      ensures OwnersKept() && Lengthened(old(owners), old(chains), chains)
        && Founded(old(owners), owners, chains, iset{})
      ensures Valid() && owners == old(owners)[id := o]
      ensures id in old(chains) && chains == old(chains)[id := Grown(old(chains)[id], claim.command, peers[fd].proc)]
      ensures armed == (old(armed) && activeOwner != Some(id))
    {
      hide Inv, AllChained, Sane, AllAdvance, InTime, JournalOk, LedgerOk, ReceiptOk, ButtonsOk, DevicesOk, OwnersOk,
        ChainsOk, StartOk, LeaseOk, Lengthened, Founded, ChainOf, Authorized, Reconnect;
      Relink(fd, id, claim, available, o);
    }

    method Relink(fd: nat, id: nat, claim: Claim, available: bool, o: Owner)
      requires OwnersOk() && ChainsOk() && StartOk() && LeaseOk() && fd in peers && id in owners
        && peers[fd].proc !in exited
      requires Reconnect(owners[id], claim, peers[fd].proc, peers[fd].uid, exited, available) == Some(o)
      modifies this`owners, this`chains, this`armed
      ensures OwnersKept() && Lengthened(old(owners), old(chains), chains)
        && Founded(old(owners), owners, chains, iset{})
      ensures OwnersOk() && ChainsOk() && StartOk() && LeaseOk() && owners == old(owners)[id := o]
      ensures id in old(chains) && chains == old(chains)[id := Grown(old(chains)[id], claim.command, peers[fd].proc)]
      ensures armed == (old(armed) && activeOwner != Some(id))
    {
      hide LedgersEmpty, Lengthened, Founded, Inv, AllChained, Sane, AllAdvance, InTime, JournalOk, LedgerOk,
        ReceiptOk, ButtonsOk, DevicesOk;
      hide ChainOf, Authorized, Reconnect;
      OwnerAdopted(owners, chains, exited, id, claim, peers[fd].proc, peers[fd].uid, available);
      GrownIsLonger(owners, chains, id, o, claim.command, peers[fd].proc);
      owners, chains := owners[id := o], chains[id := Grown(chains[id], claim.command, peers[fd].proc)];
      if activeOwner == Some(id) { armed := false; }
    }

    // Only the current recovery process of a ledger may settle it.
    predicate SettledBy(o: Owner, peer: Peer)
      reads this`exited
    {
      peer.proc !in exited && o.recovery == Some(peer.proc) && o.recoveryUid == peer.uid
    }

    // A settling command is taken from the current recovery process of a ledger, and only the
    // one already recorded, if there is one.
    ghost predicate Settles(fd: nat, id: nat, command: string, retire: bool)
      requires fd in peers
      reads this`owners, this`peers, this`exited
    {
      && id in owners && owners[id].recovery == Some(peers[fd].proc) && owners[id].recoveryUid == peers[fd].uid
      && !(peers[fd].proc in exited)
      && 1 <= |command| <= 128 && (forall i :: 0 <= i < |command| ==> InCommands(command[i]))
      && var recorded := if retire then owners[id].retireCommand else owners[id].reconcileCommand;
        recorded.None? || recorded.value == command
    }

    // owner_reconcile and owner_retire. The command is recorded and the owner revoked before
    // anything is released, so a lost reply finds the tombstone.
    method Reconcile(fd: nat, id: nat, command: string, retire: bool, obey: bool) returns (ok: bool)
      requires Valid() && fd in peers
      modifies this`armed, this`deadline, this`failed, this`keys, this`buttons, this`ownedModifiers, this`keysDown,
               this`modsDown, this`held, this`erasures, this`foreignButtonActivity, this`world, this`owners
      ensures Valid() && Kept() && LeaseKept()
      ensures ok <==> old(Settles(fd, id, command, retire))
      ensures ok ==> id in owners && owners[id].revoked && (retire ==> owners[id].retired)
      ensures ok && activeOwner == Some(id) && !failed && !old(owners)[id].revoked ==>
        LedgersEmpty() && world.out <= orphans
      ensures obey && ok && activeOwner == Some(id) && !old(owners)[id].revoked ==>
        old(Releasable() && !Undrainable()) ==> !failed
      ensures !ok ==> owners == old(owners)
    {
      hide Valid, Follows, ValidCommand, Undrainable, Untouched, Releasable, InCommands;
      FollowsItself(Now());
      CommandMeans(command);
      if id !in owners || !SettledBy(owners[id], peers[fd]) || !ValidCommand(command) {
        return false;
      }
      var recorded := if retire then owners[id].retireCommand else owners[id].reconcileCommand;
      if recorded.Some? && recorded.value != command {
        return false;
      }
      ok := true;
      SettleOwner(id, command, retire, obey);
    }

    // The tombstone first, then the release, and then the record that it is done.
    method SettleOwner(id: nat, command: string, retire: bool, obey: bool)
      requires Valid() && id in owners
      modifies this`armed, this`deadline, this`failed, this`keys, this`buttons, this`ownedModifiers, this`keysDown,
               this`modsDown, this`held, this`erasures, this`foreignButtonActivity, this`world, this`owners
      ensures Valid() && Kept() && LeaseKept()
      ensures id in owners && owners[id].revoked && (retire ==> owners[id].retired)
      ensures activeOwner == Some(id) && !failed && !old(owners)[id].revoked ==> LedgersEmpty() && world.out <= orphans
      ensures obey && activeOwner == Some(id) && !old(owners)[id].revoked && old(Releasable() && !Undrainable()) ==>
        !failed
    {
      hide Releasable, Undrainable, Valid, Follows, LedgersEmpty;
      var revoked := owners[id].revoked;
      ghost var first := Now();
      RevokeOwner(id, command, retire, obey);
      if !revoked {
        ghost var drained := Now();
        MarkSettled(id);
        FollowsOn(first, drained, Now(), false, iset{});
      }
    }

    method MarkSettled(id: nat)
      requires Valid() && id in owners && owners[id].revoked
      requires activeOwner == Some(id) ==> !armed && (failed || LedgersEmpty())
      modifies this`owners
      ensures Valid() && Kept() && id in owners && owners[id] == old(owners)[id].(reconciled := true)
    {
      hide Valid, AllAdvance, Follows, LedgersEmpty;
      ghost var before := Now();
      MarkReconciled(id);
      OwnersFollow(before, owners);
    }

    method RevokeOwner(id: nat, command: string, retire: bool, obey: bool)
      requires Valid() && id in owners
      modifies this`armed, this`deadline, this`failed, this`keys, this`buttons, this`ownedModifiers, this`keysDown,
               this`modsDown, this`held, this`erasures, this`foreignButtonActivity, this`world, this`owners
      ensures Valid() && Kept() && LeaseKept()
      ensures id in owners && owners[id].revoked && (retire ==> owners[id].retired)
      ensures activeOwner == Some(id) && !old(owners)[id].revoked ==>
        !armed && (!failed ==> LedgersEmpty() && world.out <= orphans)
      ensures obey && activeOwner == Some(id) && !old(owners)[id].revoked && old(Releasable() && !Undrainable()) ==>
        !failed
    {
      hide Valid, AllAdvance, Follows, LedgersEmpty, Undrainable, Untouched, Releasable, OthersSpared;
      ghost var first := Now();
      var revoked := owners[id].revoked;
      Tombstone(id, command, retire);
      OwnersFollow(first, owners);
      if !revoked && activeOwner == Some(id) {
        ghost var marked := Now();
        Revoke(obey);
        FollowsOn(first, marked, Now(), false, iset{});
        RevokedStays(id, marked, Now());
      }
    }

    lemma EmptyIsClean()
      requires Valid() && LedgersEmpty()
      ensures world.out <= orphans
    {}

    lemma RevokedStays(id: nat, p: Past, q: Past)
      requires Follows(p, q, false, iset{}) && id in p.owners
      ensures id in q.owners
      ensures (p.owners[id].revoked ==> q.owners[id].revoked) && (p.owners[id].retired ==> q.owners[id].retired)
    {}

    // Records the command and revokes the owner; retirement is recorded with it.
    method Tombstone(id: nat, command: string, retire: bool)
      requires Valid() && id in owners
      modifies this`armed, this`deadline, this`owners
      ensures Valid() && OwnersKept() && owners.Keys == old(owners).Keys && id in owners && owners[id].revoked
        && (retire ==> owners[id].retired)
      ensures Releasable() == old(Releasable()) && Undrainable() == old(Undrainable())
      ensures armed == (old(armed) && activeOwner != Some(id)) && (armed ==> deadline == old(deadline))
    {
      hide KeyboardOwned, JournalNeeded, JournalUp, DevicesOrClean, LedgersEmpty, Overlap, Inv, AllChained, Sane,
        AllAdvance, InTime, JournalOk, LedgerOk, ReceiptOk, ButtonsOk, DevicesOk, OwnersOk, ChainsOk, StartOk,
        LeaseOk, Chained;
      RecordTombstone(id, command, retire);
    }

    // What a release depends on.
    static predicate SameState(o: Owner, o': Owner) {
      o'.empty == o.empty && o'.ack == o.ack && o'.unknown == o.unknown && o'.reconciled == o.reconciled
    }

    method RecordTombstone(id: nat, command: string, retire: bool)
      requires OwnersOk() && ChainsOk() && StartOk() && LeaseOk() && id in owners
      modifies this`armed, this`deadline, this`owners
      ensures OwnersOk() && ChainsOk() && StartOk() && LeaseOk() && OwnersKept() && owners.Keys == old(owners).Keys
        && id in owners && owners[id].revoked
        && (retire ==> owners[id].retired)
      ensures owners == old(owners)[id := owners[id]] && SameState(old(owners)[id], owners[id])
      ensures armed == (old(armed) && activeOwner != Some(id)) && (armed ==> deadline == old(deadline))
    {
      hide Inv, AllChained, Sane, AllAdvance, InTime, JournalOk, LedgerOk, ReceiptOk, ButtonsOk, DevicesOk, Chained;
      if activeOwner == Some(id) { armed, deadline := false, 0; }
      var o := owners[id];
      var o' := if retire then o.(retireCommand := Some(command), revoked := true, retired := true)
                else o.(reconcileCommand := Some(command), revoked := true);
      OwnerReplaced(owners, chains, exited, id, o');
      owners := owners[id := o'];
    }

    method MarkReconciled(id: nat)
      requires Valid() && id in owners && owners[id].revoked
      requires activeOwner == Some(id) ==> !armed && (failed || LedgersEmpty())
      modifies this`owners
      ensures Valid() && OwnersKept() && owners.Keys == old(owners).Keys
        && owners == old(owners)[id := old(owners)[id].(reconciled := true)]
    {
      hide Inv, AllChained, Sane, AllAdvance, InTime, JournalOk, LedgerOk, ReceiptOk, ButtonsOk, DevicesOk, Chained,
        LeaseOk;
      var o' := owners[id].(reconciled := true);
      OwnerReplaced(owners, chains, exited, id, o');
      owners := owners[id := o'];
    }

    // ---- The world around the plugin ----

    method Tick(t: int)
      requires Valid()
      modifies this`now
      ensures Valid() && now == if t > old(now) then t else old(now)
    {
      hide Inv, AllChained, Sane, InTime, JournalOk, LedgerOk, ReceiptOk, ButtonsOk, DevicesOk, OwnersOk, StartOk,
        ChainsOk;
      if t > now { now := t; }
    }

    method Exit(proc: Proc)
      requires Valid()
      modifies this`exited
      ensures Valid() && exited == old(exited) + {proc}
    {
      hide Inv, AllChained, Sane, InTime, JournalOk, LedgerOk, ReceiptOk, ButtonsOk, DevicesOk, LeaseOk, OwnersOk,
        StartOk;
      MoreExited(owners, chains, exited, exited + {proc});
      exited := exited + {proc};
    }

    method NewDevice(device: nat, r: Resource, isKeyboard: bool)
      requires Valid()
      modifies this`keyboards, this`pointers
      ensures Valid()
      ensures keyboards == if isKeyboard && device !in old(keyboards) then old(keyboards)[device := r]
        else old(keyboards)
      ensures pointers == if !isKeyboard && device !in old(pointers) then old(pointers)[device := r] else old(pointers)
    {
      hide Inv, AllChained, Sane, InTime, JournalOk, LedgerOk, ReceiptOk, ButtonsOk, LeaseOk, OwnersOk, StartOk,
        ChainsOk;
      if isKeyboard && device !in keyboards { keyboards := keyboards[device := r]; }
      if !isKeyboard && device !in pointers { pointers := pointers[device := r]; }
    }

    // A virtual device is destroyed; losing an active one is a revocation.
    method Destroy(device: nat, isKeyboard: bool, obey: bool)
      requires Valid()
      modifies this`armed, this`deadline, this`failed, this`keys, this`buttons, this`ownedModifiers, this`keyboards,
               this`pointers, this`keysDown, this`modsDown, this`held, this`erasures, this`foreignButtonActivity,
               this`world, this`owners
      ensures Valid() && Kept() && LeaseKept() && Buried(device, isKeyboard)
      ensures old(if isKeyboard then keyboard else pointer) == Some(device) ==> !armed
      ensures obey && old((if isKeyboard then keyboard else pointer) == Some(device) && Releasable()
        && !Undrainable()) ==>
        !armed && !failed
    {
      hide Valid, Follows, Undrainable, Untouched, Releasable;
      FollowsItself(Now());
      if (isKeyboard && keyboard == Some(device)) || (!isKeyboard && pointer == Some(device)) {
        Revoke(obey);
      }
      MarkDead(device, isKeyboard);
    }

    // The device is marked, if it is there, and no other is.
    twostate predicate Buried(device: nat, isKeyboard: bool)
      reads this`keyboards, this`pointers
    {
      && keyboards == (if isKeyboard && device in old(keyboards)
                       then old(keyboards)[device := old(keyboards)[device].(dead := true)] else old(keyboards))
      && pointers == (if !isKeyboard && device in old(pointers)
                      then old(pointers)[device := old(pointers)[device].(dead := true)] else old(pointers))
    }

    // The compositor no longer sees what a destroyed keyboard held. The aggregate list stays.
    method MarkDead(device: nat, isKeyboard: bool)
      requires Valid()
      modifies this`keyboards, this`pointers, this`keysDown, this`modsDown
      ensures Valid() && Buried(device, isKeyboard)
      ensures isKeyboard && device in keyboards ==> device !in modsDown && forall h <- keysDown :: h.device != device
    {
      hide Inv, AllChained, Sane, InTime, JournalOk, LedgerOk, ReceiptOk, ButtonsOk, LeaseOk, OwnersOk, StartOk,
        ChainsOk;
      if isKeyboard && device in keyboards {
        keyboards := keyboards[device := keyboards[device].(dead := true)];
        keysDown := set h <- keysDown | h.device != device;
        modsDown := modsDown - {device};
      }
      if !isKeyboard && device in pointers { pointers := pointers[device := pointers[device].(dead := true)]; }
    }

    // ---- Recovery of what an earlier life of the plugin left pending ----

    // obey: the environment stays quiet, every release is delivered, and the disk keeps up.
    method RecoverKeys(source: Option<nat>, obey: bool) returns (ok: bool)
      requires JournalOk() && LedgerOk()
      modifies this`world, this`keys, this`keysDown
      ensures JournalOk() && LedgerOk() && keys <= old(keys) && world.out <= old(world.out)
      ensures obey && old(JournalUp()) ==> ok && JournalUp()
      ensures ok ==> world.j.held == old(world.j.held).(keys := {}) && keys == old(keys) - old(world.j.held.keys)
    {
      hide Inv;
      var codes := world.j.held.keys;
      ok := true;
      while ok && codes != {}
        invariant JournalOk() && LedgerOk() && keys <= old(keys) && world.out <= old(world.out)
        invariant obey && old(JournalUp()) ==> ok && JournalUp()
        invariant codes <= old(world.j.held.keys)
        invariant ok ==>
          world.j.held == old(world.j.held).(keys := codes) && keys == old(keys) - (old(world.j.held.keys) - codes)
        decreases codes
      {
        var code :| code in codes;
        codes := codes - {code};
        var quiet: bool :| obey ==> quiet;   // the environment and the physical devices
        if !quiet || world.j.poisoned {
          return false;
        }
        if source.Some? { keysDown := keysDown - {Hold(code, source.value)}; }
        var accepted: bool :| obey ==> accepted;
        if accepted { Witnessed(KEY, code); }
        ok := FinishKeyRelease(code, accepted, obey);
      }
    }

    method RecoverModifiers(source: Option<nat>, obey: bool) returns (ok: bool)
      requires JournalOk() && LedgerOk()
      modifies this`world, this`ownedModifiers, this`modsDown
      ensures JournalOk() && LedgerOk() && (ownedModifiers ==> old(ownedModifiers)) && world.out <= old(world.out)
      ensures obey && old(JournalUp()) ==> ok && JournalUp()
      ensures ok ==>
        world.j.held == old(world.j.held).(modifiers := {}) && (old(world.j.held.modifiers) != {} ==> !ownedModifiers)
    {
      hide Inv;
      if world.j.held.modifiers == {} {
        return true;
      }
      var quiet: bool :| obey ==> quiet;
      var zero: bool :| obey ==> zero;      // the dispatching keyboard reports no modifier any more
      if !quiet || world.j.poisoned {
        return false;
      }
      if source.Some? { modsDown := modsDown - {source.value}; }
      if !zero {
        return false;
      }
      WitnessedModifiers();
      ok := FinishModifierRelease(obey);
    }

    method RecoverButtons(obey: bool) returns (ok: bool)
      requires JournalOk() && LedgerOk() && ButtonsOk()
      modifies this`world, this`buttons, this`held, this`erasures
      ensures JournalOk() && LedgerOk() && ButtonsOk() && buttons <= old(buttons) && world.out <= old(world.out)
      ensures Accounted(old(held), old(erasures), held, erasures, true)
      ensures forall h :: h in old(held) && h.code !in old(world.j.held.buttons) ==> h in held
      ensures forall h <- held :: h in old(held) && (ok ==> h.code !in old(world.j.held.buttons))
      ensures forall h <- held :: h.code !in old(world.j.held.buttons) - world.j.held.buttons
      ensures old(buttons) - buttons <= old(world.j.held.buttons) - world.j.held.buttons
      ensures obey && old(JournalUp()) ==> ok && JournalUp()
      ensures ok ==>
        world.j.held == old(world.j.held).(buttons := {}) && buttons == old(buttons) - old(world.j.held.buttons)
    {
      hide Inv, Accounted;
      NothingTaken(held, erasures, held);
      var codes := world.j.held.buttons;
      ok := true;
      while ok && codes != {}
        invariant JournalOk() && LedgerOk() && ButtonsOk() && buttons <= old(buttons) && world.out <= old(world.out)
        invariant Accounted(old(held), old(erasures), held, erasures, true)
        invariant forall h :: h in old(held) && h.code !in old(world.j.held.buttons) ==> h in held
        invariant forall h <- held :: h in old(held) && (ok && h.code in old(world.j.held.buttons) ==> h.code in codes)
        invariant forall h <- held :: h.code !in old(world.j.held.buttons) - world.j.held.buttons
        invariant old(buttons) - buttons <= old(world.j.held.buttons) - world.j.held.buttons
        invariant obey && old(JournalUp()) ==> ok && JournalUp()
        invariant codes <= old(world.j.held.buttons)
        invariant ok ==>
          world.j.held == old(world.j.held).(buttons := codes)
            && buttons == old(buttons) - (old(world.j.held.buttons) - codes)
        decreases codes
      {
        var code :| code in codes;
        codes := codes - {code};
        var quiet: bool :| obey ==> quiet;
        if !quiet || world.j.poisoned {
          return false;
        }
        if held == [] {
          // Nothing at all is held, so this intent is a ghost of a press that never happened.
          Witnessed(BUTTON, code);
          ok := FinishButtonRelease(code, true, obey);
        } else {
          ghost var before, es := held, erasures;
          DispatchRecoveryUp(code);
          AccountedOn(old(held), old(erasures), before, es, held, erasures, true);
          var accepted: bool :| obey ==> accepted;
          if accepted { Witnessed(BUTTON, code); }
          ok := FinishButtonRelease(code, accepted, obey);
        }
      }
    }

    // A release with no device behind it, dispatched only once every visible device is released.
    method DispatchRecoveryUp(code: uint32)
      requires ButtonsOk()
      modifies this`held, this`erasures
      ensures ButtonsOk() && Accounted(old(held), old(erasures), held, erasures, true)
      ensures forall h :: h in held <==> h in old(held) && h.code != code
    {
      hide Accounted, Erased;
      UpTakes(held, erasures, code, Via.RecoveryUp);
      held, erasures := Erased(held, code), erasures + [Taken(Via.RecoveryUp, held, code)];
    }

    // Intents are pending in a working journal, nothing is armed, nothing but the source holds
    // anything, and the ledgers hold no more than the journal.
    predicate Recoverable(source: Option<nat>, usable: bool)
      reads this`world, this`armed, this`keysDown, this`modsDown, this`keys, this`buttons, this`ownedModifiers
    {
      && JournalUp() && !armed && usable
      && (forall h <- keysDown :: source == Some(h.device)) && (forall d <- modsDown :: source == Some(d))
      && keys <= world.j.held.keys && buttons <= world.j.held.buttons
        && (ownedModifiers ==> world.j.held.modifiers != {})
    }

    // recoverPending(). source: the one virtual keyboard of the process the journal is bound to.
    method RecoverPending(source: Option<nat>, usable: bool, obey: bool) returns (ok: bool)
      requires Valid()
      modifies this`failed, this`keys, this`buttons, this`ownedModifiers, this`keysDown, this`modsDown, this`held,
               this`erasures, this`world, this`owners
      ensures Valid() && Follows(old(Now()), Now(), true, iset{})
      ensures ok && old(world.j.HasPending()) ==> world.out == {} && LedgersEmpty() && !failed && !armed
      ensures ok && old(world.j.HasPending()) && activeOwner.Some? ==>
        activeOwner.value in owners && owners[activeOwner.value].revoked && owners[activeOwner.value].inputFenced
      ensures forall h :: h in old(held) && h.code !in old(world.j.held.buttons) ==> h in held
      ensures forall h <- held :: h in old(held)
      ensures ok && old(world.j.HasPending()) ==> forall h <- held :: h.code !in old(world.j.held.buttons)
      ensures ok && old(world.j.HasPending()) ==>
        (OthersSpared() <==> old(forall h <- held :: pointer != Some(h.device) ==> h.code !in world.j.held.buttons))
      ensures obey && old(Recoverable(source, usable)) ==> ok
      ensures world.out <= old(world.out) && keys <= old(keys) && buttons <= old(buttons)
    {
      hide Valid, Follows, Accounted;
      ghost var first := Now();
      FollowsItself(first);
      FollowsLoosely(first, first, false, true, iset{}, iset{});
      if !world.j.ready || world.j.poisoned {
        return false;
      }
      if !world.j.HasPending() {
        return true;
      }
      if armed || !usable {
        return false;
      }
      if (exists h <- keysDown :: source != Some(h.device)) || (exists d <- modsDown :: source != Some(d)) {
        return false;
      }
      ok := RecoverAll(source, obey);
      HoldsFollow(first, held, erasures, true);
      if !ok || world.j.HasPending() || !LedgersEmpty() {
        return false;
      }
      NothingPending();
      ghost var before := Now();
      MarkRecovered();
      FollowsLoosely(before, Now(), false, true, iset{}, iset{});
      FollowsOn(first, before, Now(), true, iset{});
    }

    // Keys, modifiers and buttons, in this order.
    method RecoverInputs(source: Option<nat>, obey: bool) returns (ok: bool)
      requires JournalOk() && LedgerOk() && ButtonsOk()
      modifies this`keys, this`buttons, this`ownedModifiers, this`keysDown, this`modsDown, this`held, this`erasures,
               this`world
      ensures JournalOk() && LedgerOk() && ButtonsOk() && (ownedModifiers ==> old(ownedModifiers))
      ensures world.out <= old(world.out) && keys <= old(keys) && buttons <= old(buttons)
      ensures Accounted(old(held), old(erasures), held, erasures, true)
      ensures forall h :: h in old(held) && h.code !in old(world.j.held.buttons) ==> h in held
      ensures forall h <- held :: h in old(held) && (ok ==> h.code !in old(world.j.held.buttons))
      ensures obey && old(JournalUp()) ==> ok && JournalUp()
      ensures ok ==>
        world.j.held.Empty() && keys == old(keys - world.j.held.keys) && buttons == old(buttons - world.j.held.buttons)
      ensures ok && old(world.j.held.modifiers) != {} ==> !ownedModifiers
    {
      hide Inv, Accounted, LedgerOk, ButtonsOk;
      NothingTaken(held, erasures, held);
      ok := RecoverKeys(source, obey);
      if ok { ok := RecoverModifiers(source, obey); }
      if ok { ok := RecoverButtons(obey); }
    }

    method RecoverAll(source: Option<nat>, obey: bool) returns (ok: bool)
      requires Valid() && !armed
      modifies this`keys, this`buttons, this`ownedModifiers, this`keysDown, this`modsDown, this`held, this`erasures,
               this`world
      ensures Valid() && world.out <= old(world.out) && keys <= old(keys) && buttons <= old(buttons)
      ensures Accounted(old(held), old(erasures), held, erasures, true)
      ensures forall h :: h in old(held) && h.code !in old(world.j.held.buttons) ==> h in held
      ensures forall h <- held :: h in old(held) && (ok ==> h.code !in old(world.j.held.buttons))
      ensures obey && old(JournalUp()) ==> ok && JournalUp()
      ensures ok ==>
        world.j.held.Empty() && keys == old(keys - world.j.held.keys) && buttons == old(buttons - world.j.held.buttons)
      ensures ok && old(world.j.held.modifiers) != {} ==> !ownedModifiers
      ensures ownedModifiers ==> old(ownedModifiers)
    {
      hide Accounted, Inv, AllChained, Sane, InTime, ReceiptOk, LeaseOk, ChainsOk, OwnersSane, JournalOk, LedgerOk,
        ButtonsOk, DevicesOk;
      ok := RecoverInputs(source, obey);
    }

    // A ready journal with nothing pending accounts for everything: nothing is out.
    lemma NothingPending()
      requires Valid() && !world.j.HasPending()
      ensures world.out == {}
    {
      hide Meaning;
      assert world.j.ready && world.j.held.Empty();
    }

    // Recovery clears what was unknown, at the price of the owner's admission.
    method MarkRecovered()
      requires Valid() && !armed && LedgersEmpty()
      modifies this`failed, this`owners
      ensures Valid() && Kept() && !failed
      ensures activeOwner.Some? ==>
        activeOwner.value in owners && owners[activeOwner.value].revoked && owners[activeOwner.value].inputFenced
    {
      hide Inv, AllChained, Sane, AllAdvance, Follows, InTime, JournalOk, LedgerOk, ReceiptOk, ButtonsOk, DevicesOk,
        Chained, LeaseOk;
      ghost var before := Now();
      FollowsItself(before);
      failed := false;
      if activeOwner.Some? {
        MarkActive(owners[activeOwner.value].(empty := true, ack := true, unknown := false, inputFenced := true,
          revoked := true));
        OwnersFollow(before, owners);
      }
    }

    // Wherever a run is stopped: whatever the crash leaves on disk, the next process that opens
    // the journal holds the intent of every input that was admitted and not seen released.
    lemma NextLifeRemembers(found: Option<seq<byte>>, marked: bool, opening: Opening)
      requires Valid() && found in world.d.mains && marked in world.d.poisons
      ensures world.j.Sound()
      ensures var next := JournalRuns.Step(instance, world, Restart(found, marked, opening));
        && Inv(instance, next) && next.out == world.out
        && (ValidInstance(instance) && opening == JournalSpec.Opening(true, true, Durable) ==> next.j.ready)
        && (next.j.ready ==> world.out <= EntrySet(next.j.held))
    {
      hide AllChained, Sane, InTime, LedgerOk, ReceiptOk, ButtonsOk, DevicesOk, LeaseOk, OwnersOk, StartOk, Encode,
        Meaning, EntrySet;
      StepKeepsInv(instance, world, Restart(found, marked, opening));
    }

    // ---- A new life of the plugin ----

    // The process starts with the journal it just opened; what is out is left from before.
    // On the seat there may be holds of any device, among them those its predecessor left.
    constructor (instance: seq<byte>, world: World, now: int, seat: Seen)
      requires InstanceFits(instance) && Inv(instance, world) && world.j.ready
      ensures Valid() && this.world == world && orphans == world.out && this.now == now
      ensures keysDown == seat.keysDown && modsDown == seat.modsDown && held == seat.held && erasures == []
      ensures !armed && !failed && LedgersEmpty() && owners == map[] && admissions == [] && completed == map[]
      ensures exited == {} && starts == map[] && peers == map[] && keyboards == map[] && pointers == map[]
        && snapshots == map[]
    {
      hide Inv, Chained, InTime;
      this.instance, this.world, this.orphans, this.now := instance, world, world.out, now;
      keysDown, modsDown, held, erasures := seat.keysDown, seat.modsDown, seat.held, [];
      exited, starts, peers, keyboards, pointers, snapshots := {}, map[], map[], map[], map[], map[];
      armed, deadline, token, guardianFD, keyboard, pointer := false, 0, 0, None, None, None;
      granted, absolute, admissions := 0, 0, [];
      keys, buttons, ownedModifiers, buttonOwnershipKnown, foreignButtonActivity, failed := {}, {}, false, false,
        false, false;
      owners, activeOwner, chains, receipt, completed := map[], None, map[], None, map[];
    }

    // ---- A run in which recovery takes another device's hold ----

    // Nothing has happened yet, on an empty seat.
    ghost predicate Idle()
      reads this`now, this`exited, this`owners, this`armed, this`failed, this`held, this`keysDown, this`modsDown,
            this`keys, this`buttons, this`ownedModifiers
    {
      && now == START && exited == {} && owners == map[] && !armed && !failed
      && held == [] && keysDown == {} && modsDown == {} && LedgersEmpty()
    }

    // A guardian is connected, its two devices are there, and a window is bound.
    ghost predicate Prepared()
      reads this
    {
      && Idle() && peers == map[1 := Peer(GUARDIAN, 1000)] && StartOf(7) == [0x37, 0x30]
      && snapshots == map[3 := START] && keyboards == map[1 := DEVICE] && pointers == map[2 := DEVICE]
    }

    method Introduce()
      requires Valid() && Idle() && starts == map[] && peers == map[] && keyboards == map[] && pointers == map[]
        && snapshots == map[]
      modifies this`starts, this`peers, this`keyboards, this`pointers, this`snapshots
      ensures Valid() && Prepared()
    {
      hide Valid, Idle;
      Connect(1, Peer(GUARDIAN, 1000));
      See(7, [0x37, 0x30]);
      NewDevice(1, DEVICE, true);
      NewDevice(2, DEVICE, false);
      assert now == START by { IdleSince(); }
      TakeSnapshot(3);
    }

    lemma IdleSince()
      requires Idle()
      ensures now == START
    {}

    lemma PreparedIsArmable()
      requires Prepared()
      ensures 1 in peers && 11 !in owners && Armable(1, 3, 1, 2, true, true, false)
    {}

    method ArmPrepared()
      requires Valid() && Prepared() && JournalUp() && world.j.held.Empty()
      modifies this
      ensures Valid() && Unused() && world == old(world)
    {
      hide Valid, Kept, Follows, BoundedDeadline, Armable, LedgersEmpty, Unused, Stands, SourceOk;
      LeaseIsBounded(START, START + 100_000_000, 100);
      PreparedIsArmable();
      var _ := Arm(1, START + 100_000_000, 100, 3, 1, 2, true, true, false, 11);
      ArmedIsUnused();
    }

    lemma ArmedIsUnused()
      requires armed && !failed && now < deadline && guardianFD == Some(1) && exited == {}
      requires peers == map[1 := Peer(GUARDIAN, 1000)] && keyboards == map[1 := DEVICE] && pointers == map[2 := DEVICE]
      requires keyboard == Some(1) && pointer == Some(2) && StartOf(7) == [0x37, 0x30]
      requires JournalUp() && world.j.held.Empty() && activeOwner.Some?
      requires held == [] && keysDown == {} && modsDown == {} && LedgersEmpty() && OwnsButtons()
      ensures Unused()
    {}

    // A stranger's pointer presses a button while no intent is pending, so nothing is poisoned.
    method StrangerPresses()
      requires Valid() && Unused() && world.j.held.Empty()
      modifies this
      ensures Valid() && Pressed() && world == old(world)
    {
      hide Valid, Kept, LeaseKept, Follows, Bindable;
      var _ := OnButton(9, LEFT_BUTTON, true, true, true, true);
    }

    // The owned pointer presses the same button.
    method OwnerPresses()
      requires Valid() && Pressed() && world.j.held.Empty()
      modifies this
      ensures Valid() && held == [Hold(LEFT_BUTTON, 9), Hold(LEFT_BUTTON, 2)] && HeldTwice()
    {
      hide Valid, Kept, LeaseKept, Follows, SourceOk, Stands, Fenced;
      ArmedIsNotFenced();
      var _ := OnButton(2, LEFT_BUTTON, true, true, true, true);
    }

    // Armed by the guardian of pointer 2, with nothing held by anyone.
    ghost predicate Unused()
      reads this
    {
      && Stands(true) && SourceOk() && OwnsButtons() && pointer == Some(2) && 9 !in pointers && activeOwner.Some?
      && held == [] && keysDown == {} && modsDown == {} && LedgersEmpty()
    }

    ghost predicate Pressed()
      reads this
    {
      && Stands(true) && armed && SourceOk() && pointer == Some(2) && activeOwner.Some?
        && held == [Hold(LEFT_BUTTON, 9)]
      && buttonOwnershipKnown && foreignButtonActivity && keysDown == {} && modsDown == {} && LedgersEmpty()
    }

    // The one owned button is held by another device, too.
    ghost predicate HeldTwice()
      reads this
    {
      && JournalUp() && world.j.held == Held({}, {LEFT_BUTTON}, {}) && pointer == Some(2) && activeOwner.Some?
      && keys == {} && buttons == {LEFT_BUTTON} && !ownedModifiers && keysDown == {} && modsDown == {}
      && buttonOwnershipKnown && foreignButtonActivity
    }

    // ---- Runs ----

    method Connect(fd: nat, peer: Peer)
      requires Valid()
      modifies this`peers
      ensures Valid() && peers == if fd in old(peers) then old(peers) else old(peers)[fd := peer]
    {
      hide Valid;
      if fd !in peers { peers := peers[fd := peer]; }
    }

    method See(pid: nat, ticks: seq<byte>)
      requires Valid()
      modifies this`starts
      ensures Valid() && StartOf(pid) == ticks
    {
      hide Valid;
      starts := if ticks == [] then starts - {pid} else starts[pid := ticks];
    }

    method TakeSnapshot(snapshot: nat)
      requires Valid()
      modifies this`snapshots
      ensures Valid() && snapshots == old(snapshots)[snapshot := now]
    {
      hide Valid;
      snapshots := snapshots[snapshot := now];
    }

    // Something happened that may be admitted, while the scene was the one bound.
    static ghost predicate Offers(a: Action) {
      || (a.KeyEvent? && a.down && a.view)
      || (a.ModifierEvent? && a.fields != {} && a.view)
      || (a.ButtonEvent? && a.down && a.target && a.view)
    }

    // An owned device presses something.
    ghost predicate OwnedDown(a: Action)
      reads this`keyboard, this`pointer
    {
      || (a.KeyEvent? && a.down && keyboard == Some(a.device))
      || (a.ModifierEvent? && a.fields != {} && keyboard == Some(a.device))
      || (a.ButtonEvent? && a.down && pointer == Some(a.device))
    }

    // What is admitted is one press of an owned device, offered while everything stands; one that
    // is not ends the lease.
    twostate predicate Gated(a: Action)
      reads this`armed, this`admissions
    {
      && (admissions != old(admissions) ==>
            && Offers(a) && old(OwnedDown(a)) && old(Stands(true))
            && |admissions| == |old(admissions)| + 1)
      && (old(OwnedDown(a)) && !(Offers(a) && old(Stands(true))) ==> !armed)
    }

    // What devices do.
    method ApplyInput(a: Action)
      requires Valid() && (a.KeyEvent? || a.ModifierEvent? || a.ButtonEvent?)
      modifies this`armed, this`deadline, this`failed, this`keys, this`buttons, this`ownedModifiers, this`keysDown,
               this`modsDown, this`held, this`erasures, this`foreignButtonActivity, this`world, this`owners,
               this`admissions
      ensures Valid() && Kept() && LeaseKept() && Gated(a)
    {
      hide Valid, Follows, Unrecordable, Recordable, AllRecordable, Fenced, KindEntries, GuardianStands, DevicesStand;
      match a {
        case KeyEvent(device, code, down, view) => var _ := OnKey(device, code, down, view, false);
        case ModifierEvent(device, fields, view) => var _ := OnMod(device, fields, view, false);
        case ButtonEvent(device, code, down, view, target) =>
          var _ := OnButton(device, code, down, view, target, false);
        case _ => assert false;
      }
    }

    predicate IsRequest(a: Action) {
      a.ArmRequest? || a.RenewRequest? || a.ReleaseRequest? || a.TaggedReleaseRequest? || a.CaptureRequest? ||
      a.ReconnectRequest? || a.ReconcileRequest? || a.RecoveryRequest?
    }

    // An arm or a renewal starts this lease, at this moment: an arm where no lease stands, and a
    // renewal where one does, from the connection and with the token it is bound to.
    twostate predicate Leased(a: Action)
      reads this
    {
      && Grants(a, deadline, granted, absolute) && armed && granted == now < deadline
      && guardianFD == Some(a.fd) && token == a.snapshot && admissions == old(admissions)
      && (a.ArmRequest? ==> !(old(armed) && old(Stands(a.view))))
      && (a.RenewRequest? ==>
            && old(Stands(a.view)) && old(guardianFD) == Some(a.fd) && old(token) == a.snapshot
            && activeOwner == old(activeOwner))
    }

    // Who may open a ledger with this request.
    ghost function Founders(a: Action): iset<(nat, Proc)>
      reads this`peers
    {
      if a.CaptureRequest? && a.fd in peers then iset{(a.nonce, peers[a.fd].proc)} else iset{}
    }

    // A ledger with a recovery process is opened only by a capture, and starts with the chain of the
    // asking process alone. (An arm opens one without a recovery process.)
    twostate predicate Opened(a: Action)
      reads this`owners, this`chains, this`peers
    {
      forall id :: id in owners && id !in old(owners) && owners[id].recovery.Some? ==>
        && a.CaptureRequest? && id == a.nonce && a.fd in old(peers)
        && id in chains && chains[id] == Chain([old(peers)[a.fd].proc], [])
    }

    // What guardians and recovery processes ask. Requests on unknown connections never arrive.
    method ApplyRequest(a: Action)
      requires Valid() && IsRequest(a)
      modifies this
      ensures Valid() && Follows(old(Now()), Now(), a.RecoveryRequest?, old(Founders(a)))
      ensures (LeaseKept() || Leased(a)) && Opened(a)
      ensures OnlyCompletes(a) && peers == old(peers) && now == old(now)
      ensures Served(a) && admissions == old(admissions)
    {
      hide Valid, Follows, LeaseKept, Leased, Served;
      ghost var before := Now();
      if a.ArmRequest? || a.RenewRequest? {
        ApplyLeaseRequest(a);
      } else if a.ReleaseRequest? || a.TaggedReleaseRequest? {
        ApplyCleanup(a);
      } else {
        ApplyOwnerRequest(a);
        return;
      }
      NoneOpened(before, Now(), false);
      FollowsLoosely(before, Now(), false, a.RecoveryRequest?, iset{}, old(Founders(a)));
    }

    method ApplyLeaseRequest(a: Action)
      requires Valid() && (a.ArmRequest? || a.RenewRequest?)
      modifies this`armed, this`deadline, this`failed, this`keys, this`buttons, this`ownedModifiers, this`keysDown,
               this`modsDown, this`held, this`erasures, this`foreignButtonActivity, this`world, this`owners,
               this`granted, this`absolute, this`token, this`guardianFD, this`keyboard, this`pointer,
               this`activeOwner, this`chains, this`snapshots, this`buttonOwnershipKnown
      ensures Valid() && Kept() && (LeaseKept() || Leased(a)) && Served(a)
    {
      hide Valid, Follows, Stands, BoundedDeadline;
      FollowsItself(Now());
      match a {
        case ArmRequest(fd, absolute, leaseMs, snapshot, k, p, view, onOutput, unclear, nonce) =>
          if fd in peers && nonce !in owners {
            var _ := ArmFenced(fd, absolute, leaseMs, snapshot, k, p, view, onOutput, unclear, nonce);
          }
        case RenewRequest(fd, absolute, leaseMs, snapshot, view) =>
          var _ := RenewFenced(fd, absolute, leaseMs, snapshot, view);
        case _ => assert false;
      }
    }

    method ApplyCleanup(a: Action)
      requires Valid() && (a.ReleaseRequest? || a.TaggedReleaseRequest?)
      modifies this`armed, this`deadline, this`failed, this`keys, this`buttons, this`ownedModifiers, this`keysDown,
               this`modsDown, this`held, this`erasures, this`foreignButtonActivity, this`world, this`owners,
               this`receipt, this`completed
      ensures Valid() && Kept() && LeaseKept() && OnlyCompletes(a) && Served(a)
    {
      hide Valid, Follows, MayRelease, LedgersEmpty, Status;
      FollowsItself(Now());
      match a {
        case ReleaseRequest(view) => var _ := ReleaseAll(view, false);
        case TaggedReleaseRequest(fd, tag, view) => if fd in peers { var _ := ReleaseAllTagged(fd, tag, view, false); }
        case _ => assert false;
      }
    }

    method ApplyOwnerRequest(a: Action)
      requires Valid() && (a.CaptureRequest? || a.ReconnectRequest? || a.ReconcileRequest? || a.RecoveryRequest?)
      modifies this`armed, this`deadline, this`failed, this`keys, this`buttons, this`ownedModifiers, this`keysDown,
               this`modsDown, this`held, this`erasures, this`foreignButtonActivity, this`world, this`owners,
               this`chains
      ensures Valid() && Follows(old(Now()), Now(), a.RecoveryRequest?, old(Founders(a))) && LeaseKept()
      ensures Opened(a) && Served(a)
    {
      hide Valid, Follows, OwnerServed, LeaseKept;
      ghost var before := Now();
      if a.CaptureRequest? {
        ApplyCapture(a);
      } else {
        ApplySettlement(a);
        FollowsLoosely(before, Now(), a.RecoveryRequest?, a.RecoveryRequest?, iset{}, old(Founders(a)));
        NoneOpened(before, Now(), a.RecoveryRequest?);
      }
    }

    method ApplyCapture(a: Action)
      requires Valid() && a.CaptureRequest?
      modifies this`owners, this`chains
      ensures Valid() && Follows(old(Now()), Now(), false, old(Founders(a))) && LeaseKept()
      ensures Opened(a) && OwnerServed(a)
    {
      hide Valid, Follows, Capturable;
      FollowsItself(Now());
      FollowsLoosely(Now(), Now(), false, false, iset{}, old(Founders(a)));
      if a.fd in peers && a.nonce !in owners {
        var _ := Capture(a.fd, a.guardian, a.uid, a.identified, a.nonce, a.capability);
      }
    }

    // An adoption, a settlement or a recovery.
    method ApplySettlement(a: Action)
      requires Valid() && (a.ReconnectRequest? || a.ReconcileRequest? || a.RecoveryRequest?)
      modifies this`armed, this`deadline, this`failed, this`keys, this`buttons, this`ownedModifiers, this`keysDown,
               this`modsDown, this`held, this`erasures, this`foreignButtonActivity, this`world, this`owners,
               this`chains
      ensures Valid() && Follows(old(Now()), Now(), a.RecoveryRequest?, iset{}) && LeaseKept() && OwnerServed(a)
    {
      hide Valid, Follows, Settles, LedgersEmpty, Chained, Reconnect, ReconnectConfirmed;
      FollowsItself(Now());
      FollowsLoosely(Now(), Now(), false, a.RecoveryRequest?, iset{}, iset{});
      match a {
        case ReconnectRequest(fd, id, claim, available) =>
          if fd in peers { var _ := OwnerReconnect(fd, id, claim, available); }
        case ReconcileRequest(fd, id, command, retire) =>
          if fd in peers { var _ := Reconcile(fd, id, command, retire, false); }
        case RecoveryRequest(source, usable) => var _ := RecoverPending(source, usable, false);
        case _ => assert false;
      }
    }

    // Only a tagged release_all touches the record of a completed command, and only its own.
    twostate predicate OnlyCompletes(a: Action)
      reads this`completed
    {
      forall c :: !(a.TaggedReleaseRequest? && a.tag.command == c) ==>
        (c in completed <==> c in old(completed)) && (c in completed ==> completed[c] == old(completed)[c])
    }

    // Only a connection brings a new peer.
    twostate predicate NewPeer(a: Action)
      reads this`peers
    {
      forall fd :: fd in peers ==> (fd in old(peers) && peers[fd] == old(peers)[fd]) || a == Connected(fd, peers[fd])
    }

    // What an event around the plugin comes to.
    twostate predicate Happened(a: Action)
      reads this`armed, this`guardianFD, this`peers, this`keyboards, this`pointers, this`snapshots, this`exited,
            this`starts, this`now
    {
      match a
      case Lapse => !armed
      case Connected(fd, peer) => peers == if fd in old(peers) then old(peers) else old(peers)[fd := peer]
      case Disconnected(fd) =>
        peers == old(peers) - {fd} && (old(guardianFD) == Some(fd) ==> !armed && guardianFD.None?)
      case DeviceCreated(device, r, isKeyboard) =>
        && keyboards == (if isKeyboard && device !in old(keyboards) then old(keyboards)[device := r]
                         else old(keyboards))
        && pointers == (if !isKeyboard && device !in old(pointers) then old(pointers)[device := r] else old(pointers))
      case DeviceDestroyed(device, isKeyboard) =>
        && Buried(device, isKeyboard)
        && (old(if isKeyboard then keyboard else pointer) == Some(device) ==> !armed)
      case SnapshotTaken(snapshot) => snapshots == old(snapshots)[snapshot := old(now)]
      case ProcessExited(proc) => exited == old(exited) + {proc}
      case ProcessSeen(pid, ticks) => StartOf(pid) == ticks
      case TimePassed(t) => now == if t > old(now) then t else old(now)
      case _ => true
    }

    // What a request comes to: a lease where one may be granted, and none after a cleanup.
    twostate predicate Served(a: Action)
      reads this
    {
      && (a.ReleaseRequest? ==> !armed)
      && (a.TaggedReleaseRequest? && a.fd in old(peers) && old(MayRelease(a.fd, a.tag)) ==>
        !armed && receipt.Some? && receipt.value.command == a.tag.command)
      && (a.RenewRequest? && old(Renewable(a)) && BoundedDeadline(now, a.absolute, a.leaseMs) != 0 ==> Leased(a))
      && (a.ArmRequest? && old(MayArm(a)) && BoundedDeadline(now, a.absolute, a.leaseMs) != 0 ==> Leased(a))
      && OwnerServed(a)
    }

    ghost predicate Renewable(a: Action)
      requires a.RenewRequest?
      reads this
    {
      Stands(a.view) && guardianFD == Some(a.fd) && token == a.snapshot
    }

    ghost predicate MayArm(a: Action)
      requires a.ArmRequest?
      reads this
    {
      && a.fd in peers && a.nonce !in owners && !armed && !failed
      && Armable(a.fd, a.snapshot, a.k, a.p, a.view, a.onOutput, a.unclear)
    }

    // A capture, an adoption and a settlement that may be made are made.
    twostate predicate OwnerServed(a: Action)
      reads this`owners, this`armed, this`activeOwner
    {
      && (a.CaptureRequest? && a.fd in old(peers) && a.nonce !in old(owners) && a.identified
          && old(Capturable(a.fd, a.guardian)) ==>
        LedgerOf(a.guardian, old(peers)[a.fd].proc))
      && (a.ReconnectRequest? && old(MayAdopt(a)) ==>
        a.id in owners && owners[a.id].inputFenced && (activeOwner == Some(a.id) ==> !armed))
      && (a.ReconcileRequest? && a.fd in old(peers) && old(Settles(a.fd, a.id, a.command, a.retire)) ==>
        a.id in owners && owners[a.id].revoked)
    }

    ghost predicate LedgerOf(guardian: Proc, recovery: Proc)
      reads this`owners
    {
      exists id :: id in owners && owners[id].guardian == guardian && owners[id].recovery == Some(recovery)
    }

    ghost predicate MayAdopt(a: Action)
      requires a.ReconnectRequest?
      reads this`peers, this`exited, this`owners
    {
      && a.fd in peers && peers[a.fd].proc !in exited && a.id in owners
      && Reconnect(owners[a.id], a.claim, peers[a.fd].proc, peers[a.fd].uid, exited, a.available).Some?
    }

    // An event takes effect.
    twostate predicate Effect(a: Action)
      reads this
    {
      if IsRequest(a) then Served(a)
      else if a.KeyEvent? || a.ModifierEvent? || a.ButtonEvent? then Gated(a)
      else Happened(a)
    }

    // One event of a run.
    method Apply(a: Action)
      requires Valid()
      modifies this
      ensures Valid() && Follows(old(Now()), Now(), a.RecoveryRequest?, old(Founders(a)))
      ensures (LeaseKept() || Leased(a)) && Opened(a)
      ensures OnlyCompletes(a)
      ensures NewPeer(a) && now >= old(now)
      ensures Effect(a) && (admissions != old(admissions) ==> Gated(a) && Offers(a))
    {
      hide Valid, Follows, Leased, LeaseKept, Effect, Gated;
      if IsRequest(a) {
        ApplyRequest(a);
        RequestServed(a);
      } else {
        ghost var before := Now();
        ApplyEvent(a);
        NoneOpened(before, Now(), false);
      }
    }

    twostate lemma RequestServed(a: Action)
      requires IsRequest(a) && Served(a)
      ensures Effect(a)
    {}

    // What is not a request.
    method ApplyEvent(a: Action)
      requires Valid() && !IsRequest(a)
      modifies this`armed, this`deadline, this`failed, this`keys, this`buttons, this`ownedModifiers, this`guardianFD,
               this`keysDown, this`modsDown, this`held, this`erasures, this`foreignButtonActivity, this`world,
               this`owners, this`peers, this`keyboards, this`pointers, this`snapshots, this`exited, this`starts,
               this`now, this`admissions
      ensures Valid() && Kept() && LeaseKept() && NewPeer(a) && now >= old(now)
      ensures Effect(a) && (admissions != old(admissions) ==> Gated(a) && Offers(a))
    {
      hide Valid, Follows, LeaseKept, Happened, Stands, OwnedDown;
      if a.KeyEvent? || a.ModifierEvent? || a.ButtonEvent? {
        ApplyInput(a);
      } else if a.Lapse? || a.Disconnected? || a.DeviceDestroyed? {
        ApplyLoss(a);
      } else {
        ApplyElse(a);
      }
    }

    // The lease, a connection or a device is lost.
    method ApplyLoss(a: Action)
      requires Valid() && (a.Lapse? || a.Disconnected? || a.DeviceDestroyed?)
      modifies this`armed, this`deadline, this`failed, this`keys, this`buttons, this`ownedModifiers, this`guardianFD,
               this`keysDown, this`modsDown, this`held, this`erasures, this`foreignButtonActivity, this`world,
               this`owners, this`peers, this`keyboards, this`pointers
      ensures Valid() && Kept() && LeaseKept() && NewPeer(a) && Happened(a)
    {
      hide Valid, Follows;
      match a {
        case Lapse => Revoke(false);
        case Disconnected(fd) => Drop(fd, false);
        case DeviceDestroyed(device, isKeyboard) => Destroy(device, isKeyboard, false);
        case _ => assert false;
      }
    }

    // What else happens around the plugin.
    method ApplyElse(a: Action)
      requires Valid() && !IsRequest(a) && !a.KeyEvent? && !a.ModifierEvent? && !a.ButtonEvent?
      requires !a.Lapse? && !a.Disconnected? && !a.DeviceDestroyed?
      modifies this`peers, this`keyboards, this`pointers, this`snapshots, this`exited, this`starts, this`now
      ensures Valid() && Kept() && LeaseKept() && NewPeer(a) && now >= old(now) && Happened(a)
    {
      hide Valid, Follows;
      FollowsItself(Now());
      match a {
        case Connected(fd, peer) => Connect(fd, peer);
        case DeviceCreated(device, resource, isKeyboard) => NewDevice(device, resource, isKeyboard);
        case SnapshotTaken(snapshot) => TakeSnapshot(snapshot);
        case ProcessExited(proc) => Exit(proc);
        case ProcessSeen(pid, ticks) => See(pid, ticks);
        case TimePassed(t) => Tick(t);
        case _ => assert false;
      }
    }

    // The lease that stood when the run began, or one that a request of the run granted.
    twostate predicate Known(actions: seq<Action>, deadline: int, granted: int, absolute: int)
      reads this`armed, this`deadline, this`granted, this`absolute
    {
      || (old(armed) && deadline == old(this.deadline) && granted == old(this.granted)
        && absolute == old(this.absolute))
      || Granted(actions, deadline, granted, absolute)
    }

    static ghost predicate Increasing(s: seq<nat>) { forall j, k :: 0 <= j < k < |s| ==> s[j] < s[k] }

    // A whole run. Every admission comes from an event of its own that offered it (sources says
    // which). Admission once lost stays lost, no owner is forgotten, and no chain is replaced:
    // it only gets longer, and a new one starts at the process that asked for its ledger. Every
    // down was forwarded inside a lease that some request granted. Every hold that is gone was
    // taken by an up on record, of which an owned pointer's took none but its own. The outcome of
    // a cleanup changes only under its own command.
    method Run(actions: seq<Action>) returns (ghost sources: seq<nat>)
      requires Valid()
      modifies this
      ensures Valid() && now >= old(now)
      ensures Follows(old(Now()), Now(), Recovers(actions), iset p: (nat, Proc) | Asked(actions, old(peers), p.0, p.1))
      ensures old(admissions) <= admissions && Increasing(sources)
      ensures |sources| == |admissions| - |old(admissions)|
      ensures forall k :: 0 <= k < |sources| ==> sources[k] < |actions| && Offers(actions[sources[k]])
      ensures forall m <- admissions[|old(admissions)|..] ::
        InTime(m) && Known(actions, m.deadline, m.granted, m.absolute)
      ensures forall e <- erasures :: OwnOnly(e)
      ensures forall c ::
        c in old(completed) && !Commands(actions, c) ==> c in completed && completed[c] == old(completed)[c]
      ensures forall c :: c in completed && !Commands(actions, c) ==> c in old(completed)
    {
      hide Valid, Follows, BoundedDeadline, Stands, Effect, Gated, Offers, Founders;
      ghost var first, recovery := Now(), Recovers(actions);
      ghost var founders := iset p: (nat, Proc) | Asked(actions, peers, p.0, p.1);
      FollowsItself(first);
      FollowsLoosely(first, first, false, recovery, iset{}, founders);
      sources := [];
      for i := 0 to |actions|
        invariant |sources| == |admissions| - |old(admissions)| && Increasing(sources)
        invariant forall k :: 0 <= k < |sources| ==> sources[k] < i && Offers(actions[sources[k]])
        invariant Valid() && now >= old(now) && Follows(first, Now(), recovery, founders)
          && old(admissions) <= admissions
        invariant forall fd :: fd in peers ==> Joined(actions, old(peers), fd, peers[fd].proc)
        invariant armed ==> Known(actions, deadline, granted, absolute)
        invariant forall m <- admissions[|old(admissions)|..] :: Known(actions, m.deadline, m.granted, m.absolute)
        invariant forall c ::
          c in old(completed) && !Commands(actions, c) ==> c in completed && completed[c] == old(completed)[c]
        invariant forall c :: c in completed && !Commands(actions, c) ==> c in old(completed)
      {
        ghost var before, asked := Now(), Founders(actions[i]);
        assert actions[i] in actions;
        assert asked <= founders by { Asks(actions, i, old(peers)); }
        ghost var admitted := |admissions|;
        Apply(actions[i]);
        if |admissions| > admitted { sources := sources + [i]; }
        FollowsLoosely(before, Now(), actions[i].RecoveryRequest?, recovery, asked, founders);
        FollowsOn(first, before, Now(), recovery, founders);
      }
      RecordsOk();
    }

    lemma Asks(actions: seq<Action>, i: nat, first: map<nat, Peer>)
      requires i < |actions| && forall fd :: fd in peers ==> Joined(actions, first, fd, peers[fd].proc)
      ensures Founders(actions[i]) <= iset p: (nat, Proc) | Asked(actions, first, p.0, p.1)
    {
      hide Joined;
      assert actions[i] in actions;
    }

    lemma RecordsOk()
      requires Valid()
      ensures (forall m <- admissions :: InTime(m)) && forall e <- erasures :: OwnOnly(e)
    {}
  }

  const GUARDIAN: Proc := Proc(7, 70)
  const DEVICE: Resource := Resource(7, 5, false)
  const START: int := 1_000_000_000

  // The guardian arms, with nothing held and nothing pending.
  method JustArmed(instance: seq<byte>, world: World) returns (s: State)
    requires InstanceFits(instance) && Inv(instance, world)
    requires world.j.ready && !world.j.poisoned && world.j.held.Empty()
    ensures fresh(s) && s.Valid() && s.world == world && s.Unused()
  {
    hide State.Valid, State.LedgersEmpty, State.Prepared, State.Unused, Inv;
    s := new State(instance, world, START, Seen({}, {}, []));
    s.Introduce();
    s.ArmPrepared();
  }

  lemma FirstIsIn(held: seq<Hold>)
    ensures held != [] ==> held[0] in held
  {}

  // A run in which recovery takes another device's hold. The lease lapses, and its end is declined
  // because the button is held twice; recovery then releases the button for both.
  method RecoveryTakesAnothersHold(instance: seq<byte>, world: World) returns (s: State, ghost before: seq<Hold>)
    requires InstanceFits(instance) && Inv(instance, world)
    requires world.j.ready && !world.j.poisoned && world.j.held.Empty()
    ensures s.Valid() && s.pointer == Some(2)
    ensures before == [Hold(LEFT_BUTTON, 9), Hold(LEFT_BUTTON, 2)] && s.held == []
  {
    hide State.Valid, State.Kept, State.Unused, State.Pressed, Follows, Inv;
    s := JustArmed(instance, world);
    s.StrangerPresses();
    s.OwnerPresses();
    s.Overlapped();
    s.Revoke(true);
    before := s.held;
    var ok := s.RecoverPending(None, true, true);
    FirstIsIn(s.held);
  }
}
