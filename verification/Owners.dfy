// The plugin's owner ledgers: who may recover a guardian's input, and the adoption of that
// right by a successor of a dead recovery process (OwnerLedger and ownerRequest()).
module Owners {
  import opened Options
  import opened Lists

  // A process identity is a pid and its start ticks; identities are never reused.
  datatype Proc = Proc(pid: nat, start: nat)

  datatype Adoption = Adoption(previous: Proc, successor: Proc, uid: nat)

  const MAX_ADOPTIONS: nat := 128
  const MAX_COMMAND: nat := 128

  predicate CommandChar(c: char) { '0' <= c <= '9' || 'a' <= c <= 'z' || 'A' <= c <= 'Z' || c == '-' }

  predicate ValidCommand(command: string) {
    0 < |command| <= MAX_COMMAND && forall c <- command :: CommandChar(c)
  }

  datatype Owner = Owner(
    guardian: Proc, guardianUid: nat,
    recovery: Option<Proc>, recoveryUid: nat, capability: Option<nat>,
    adoptions: map<string, Adoption>,
    revoked: bool, retired: bool, unknown: bool, inputFenced: bool,
    empty: bool, ack: bool, reconciled: bool, everArmed: bool, resourcesRetired: bool,
    keyboard: Option<nat>, pointer: Option<nat>, client: Option<nat>, inventory: Option<nat>,
    reconcileCommand: Option<string>, retireCommand: Option<string>)
  {
    // Admission is lost for good once any of these holds.
    predicate Lost() { revoked || retired || unknown || inputFenced }
  }

  // owner_capture: a guardian registered by its recovery process before its first arm.
  function Captured(guardian: Proc, uid: nat, recovery: Proc, recoveryUid: nat, capability: nat): Owner {
    Unregistered(guardian, uid).(recovery := Some(recovery), recoveryUid := recoveryUid, capability := Some(capability))
  }

  // A guardian that arms without having been captured has no recovery authority at all.
  function Unregistered(guardian: Proc, uid: nat): Owner {
    Owner(guardian, uid, None, 0, None, map[], false, false, false, false, true, true, false, false, false,
          None, None, None, None, None, None)
  }

  // What a reconnecting process presents.
  datatype Claim = Claim(command: string, guardian: Proc, guardianUid: nat, capability: nat, previous: Proc,
    previousUid: nat)

  predicate Authorized(o: Owner, c: Claim, peerUid: nat) {
    && ValidCommand(c.command)
    && c.guardian == o.guardian && c.guardianUid == o.guardianUid
    && o.capability == Some(c.capability)
    && peerUid == o.recoveryUid && c.previousUid == o.recoveryUid
  }

  // owner_reconnect: None is a refusal. available: a descriptor for the successor was obtained.
  function Reconnect(o: Owner, c: Claim, peer: Proc, peerUid: nat, exited: set<Proc>, available: bool): Option<Owner> {
    if !Authorized(o, c, peerUid) then None
    else if c.command in o.adoptions then None
    else if |o.adoptions| >= MAX_ADOPTIONS || o.recovery != Some(c.previous) then None
    else if c.previous !in exited then None
    else if !available then None
    else Some(o.(adoptions := o.adoptions[c.command := Adoption(c.previous, peer, peerUid)],
                 recovery := Some(peer), inputFenced := true))
  }

  // owner_reconnect_status: true confirms a recorded adoption to its own successor.
  predicate ReconnectConfirmed(o: Owner, c: Claim, peer: Proc, peerUid: nat) {
    && Authorized(o, c, peerUid)
    && c.command in o.adoptions
    && o.adoptions[c.command] == Adoption(c.previous, peer, peerUid)
    && o.recovery == Some(peer)
  }

  // A claim is granted exactly if it names this guardian, its uid and the secret of the capture,
  // comes from the uid that captured it, names the current recovery process, which has exited, and
  // carries a new and well-formed command while there is room; nothing else is looked at.
  lemma AdoptionNeeds(o: Owner, c: Claim, peer: Proc, peerUid: nat, exited: set<Proc>, available: bool)
    ensures Reconnect(o, c, peer, peerUid, exited, available).Some? <==>
      && c.guardian.pid == o.guardian.pid && c.guardian.start == o.guardian.start && c.guardianUid == o.guardianUid
      && o.capability.Some? && c.capability == o.capability.value
      && peerUid == o.recoveryUid && c.previousUid == o.recoveryUid
      && o.recovery.Some? && c.previous == o.recovery.value && c.previous in exited
      && c.command !in o.adoptions && |o.adoptions| < 128 && available
      && 1 <= |c.command| <= 128 && (forall i :: 0 <= i < |c.command| ==> InCommands(c.command[i]))
    ensures Reconnect(o, c, peer, peerUid, exited, available).Some? ==>
      var o' := Reconnect(o, c, peer, peerUid, exited, available).value;
      && o'.recovery == Some(peer) && o'.inputFenced
      && o'.adoptions == o.adoptions[c.command := Adoption(c.previous, peer, peerUid)]
      && o' == o.(adoptions := o'.adoptions, recovery := o'.recovery, inputFenced := o'.inputFenced)
  {
    CommandMeans(c.command);
  }

  lemma CommandMeans(command: string)
    ensures ValidCommand(command) <==>
      1 <= |command| <= 128 && forall i :: 0 <= i < |command| ==> InCommands(command[i])
  {
    forall i | 0 <= i < |command| ensures CommandChar(command[i]) <==> InCommands(command[i]) {}
  }

  // A digit, a letter or a hyphen, by its code.
  predicate InCommands(c: char) {
    var n := c as int;
    n == 45 || 48 <= n <= 57 || 65 <= n <= 90 || 97 <= n <= 122
  }

  // ---- The adoptions form one simple chain ----

  datatype Chain = Chain(procs: seq<Proc>, commands: seq<string>)

  function Grown(c: Chain, command: string, next: Proc): Chain {
    Chain(c.procs + [next], c.commands + [command])
  }

  // The recorded adoptions are exactly the links of the chain, from the captured recovery
  // process to the current one; nobody appears twice, every predecessor has exited, and the
  // guardian is fenced as soon as there is a link.
  ghost predicate ChainOf(o: Owner, c: Chain, exited: set<Proc>) {
    && |c.procs| == |c.commands| + 1 && o.recovery == Some(c.procs[|c.commands|])
    && NoRepeats(c.procs) && NoRepeats(c.commands)
    && (forall i :: 0 <= i < |c.commands| ==>
          c.commands[i] in o.adoptions
            && o.adoptions[c.commands[i]] == Adoption(c.procs[i], c.procs[i + 1], o.recoveryUid))
    && (forall command <- o.adoptions :: command in c.commands)
    && (forall i :: 0 <= i < |c.commands| ==> c.procs[i] in exited)
    && (c.commands != [] ==> o.inputFenced)
  }

  ghost predicate Chained(o: Owner, c: Chain, exited: set<Proc>) {
    if o.recovery.None? then o.capability.None? && o.adoptions == map[] else ChainOf(o, c, exited)
  }

  lemma CaptureStartsChain(guardian: Proc, uid: nat, recovery: Proc, recoveryUid: nat, capability: nat,
                           exited: set<Proc>)
    ensures ChainOf(Captured(guardian, uid, recovery, recoveryUid, capability), Chain([recovery], []), exited)
    ensures var o := Captured(guardian, uid, recovery, recoveryUid, capability);
      && o.guardian == guardian && o.guardianUid == uid && o.recoveryUid == recoveryUid
      && o.capability == Some(capability)
      && !o.revoked && !o.retired && !o.unknown && !o.inputFenced && !o.reconciled && !o.everArmed && o.empty && o.ack
      && o.keyboard.None? && o.pointer.None? && o.reconcileCommand.None? && o.retireCommand.None?
  {}

  // Each accepted adoption adds one link, whose predecessor has exited and whose successor is
  // alive and new to the chain.
  lemma ReconnectExtendsChain(o: Owner, c: Chain, claim: Claim, peer: Proc, peerUid: nat, exited: set<Proc>,
                              available: bool)
    requires Chained(o, c, exited) && peer !in exited
    requires Reconnect(o, claim, peer, peerUid, exited, available).Some?
    ensures var o' := Reconnect(o, claim, peer, peerUid, exited, available).value;
      && o.recovery.Some? && ChainOf(o', Grown(c, claim.command, peer), exited)
      && peer !in c.procs && claim.command !in c.commands && o'.inputFenced
      && ReconnectConfirmed(o', claim, peer, peerUid)
  {
    var n := |c.commands|;
    assert forall i :: 0 <= i <= n ==> c.procs[i] in exited;
    assert forall i :: 0 <= i < n ==> c.commands[i] in o.adoptions;
    var o' := Reconnect(o, claim, peer, peerUid, exited, available).value;
    forall command | command in o'.adoptions ensures command in c.commands + [claim.command] {
      if command != claim.command {
        assert command in o.adoptions;
      }
    }
  }

  // However often a command is replayed, from whatever process, it is applied at most once:
  // once it is on record it is refused by every later state of the ledger.
  lemma AppliedAtMostOnce(o: Owner, o': Owner, claim: Claim, replay: Claim, peer: Proc, other: Proc,
                          uid: nat, otherUid: nat, exited: set<Proc>, exited': set<Proc>, available: bool,
                            available': bool)
    requires replay.command == claim.command
    requires Reconnect(o, claim, peer, uid, exited, available).Some?
    requires forall command <- Reconnect(o, claim, peer, uid, exited, available).value.adoptions ::
      command in o'.adoptions
    ensures Reconnect(o', replay, other, otherUid, exited', available').None?
  {
    assert claim.command in Reconnect(o, claim, peer, uid, exited, available).value.adoptions;
  }

  // Chains only mention processes that exited, so later exits and other fields do not matter.
  lemma ChainKept(o: Owner, o': Owner, c: Chain, exited: set<Proc>, exited': set<Proc>)
    requires Chained(o, c, exited) && exited <= exited'
    requires o'.recovery == o.recovery && o'.recoveryUid == o.recoveryUid && o'.capability == o.capability
    requires o'.adoptions == o.adoptions && (o.inputFenced ==> o'.inputFenced)
    ensures Chained(o', c, exited')
  {}
}
