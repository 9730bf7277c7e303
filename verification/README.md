# Odin's Hyprland input stack, modelled and proved in Dafny

Odin lets an agent press keys and buttons in a live desktop session. A guardian process sends
the input, a compositor plugin decides whether each press is allowed and owns its release, and a
crash-safe journal records the intent of every press before it is forwarded. Beside them stand a
helper that restores a RandR topology and one that captures a screen. This project models these
parts and proves what they are for: no release by the owned devices takes another device's hold,
nothing that was pressed is forgotten, not even by a crash, and no message that is lost or late
turns into a false acknowledgement. One release may take another device's hold: a recovery, and
it does so exactly where that device holds a button whose intent is pending.

`dafny verify dfyconfig.toml` checks everything.

## How the model is laid out

- `Words`, `Crc`, `Codec`: the journal's bytes. Bytes are numbers below 256; the checksum works
  on bit-vectors, and `Division` says what it is: a remainder of polynomials over GF(2). `Meaning` is the declarative inverse of `Encode`: the one valid snapshot that
  the bytes encode, if there is one.
- `Disk`: one directory with a volatile view and the set of states a crash may leave. A crash
  may happen between any two primitives.
- `JournalSpec` says what each journal operation does, as a function of the object, the directory
  and how far the disk came; the class in `RecoveryJournal` does it with loops over bytes and is
  proved against it; `JournalRuns` proves what holds over whole runs.
- `Scope`: the plugin's state as a class, with the seat around it: the keys and modifiers each
  device holds, and the aggregate button list, which to the compositor has no owners
  (`Seat` is that list by itself). Its `Valid` is the invariant every event keeps.
  Oracles stand for what the plugin asks of the compositor: whether the window scene is still the
  one bound, whether a release was seen by the binding code, whether a device obeyed. Where a
  method takes `obey`, that parameter makes these answers, the disk's and the pipe's favourable;
  without it they are arbitrary, the favourable ones included. The compositor's releases go on a
  record with the holds they took. An `Action` is anything that can happen to the plugin, and
  `Run` is any sequence of them.
- `Owners`: ledgers and their adoption. `History`: what accounts, chains and the aggregate list
  keep from one moment to any later one. `Deadline`: leases.
- `Gestures` says what a line of the guardian means as timed events; `Grammar` says which lines
  mean what; `Planner` is the imperative parser and planner; `Plans` states what every accepted
  line satisfies. `Lines` writes lines that are read back, and `Effects` says what the events of
  each gesture do to whoever receives them. `Keymaps` stands for xkb. `Utf8` has the encoding of RFC 3629 and the decoder.
- `Guardian`: the stepper and the local half of a cleanup. `Binding` and `Cleanup`: the protocols
  between guardian and plugin, for leases and for releases. `ReplyGrammar`,
  `ReplySyntax` and `ReplyParser`: replies, as read, as written, and as parsed in the buffer.
- `RandR`, `Display`, `Restoration`; `Subsurfaces`; `Capture`.

Adoption leaves inputs held while the plugin is neither armed nor failed, so being disarmed does
not mean holding nothing. The invariant that does hold ties every admitted, unreleased input to a
ledger entry, every ledger entry to the active owner's account, every entry the owned pointer has
in the aggregate button list to the ledger, and every entry of that list to the owned pointer for
as long as ownership is known to be exclusive.

Processes are identified by pid and start ticks, which do not repeat; nonces and command ids are
fresh. One drain of the ledgers is atomic with respect to requests, while foreign button events
may arrive inside it.

## Model

| member | source | states |
|---|---|---|
| `JournalRuns.PendingInputsSurvive` | assets/hyprland-input/scope-provenance.hpp:387-409 | After any run of presses, releases, poisonings, bindings and restarts, with the machine stopping between any two disk operations, every file a crash can leave decodes, and the next process that opens it holds every input whose down was forwarded and whose up was not witnessed. |
| `JournalRuns.CrashIsAtomic` | assets/hyprland-input/scope-provenance.hpp:560-590 | A crash inside an operation leaves the file from before it or the file the finished operation would have left, and no third one. |
| `JournalRuns.StepKeepsInv` | assets/hyprland-input/scope-provenance.hpp:337-423 | Each step keeps the invariant: whatever file a crash may leave accounts for all inputs that are out, and a ready object mirrors the one certain file. |
| `JournalRuns.PersistAccounts` | assets/hyprland-input/scope-provenance.hpp:560-590 | Replacing the snapshot by one that covers what is out never exposes a file that does not, however far the replacement came. |
| `JournalRuns.RestartKeepsInv` | assets/hyprland-input/scope-provenance.hpp:337-376 | Opening whatever a crash left gives an object that holds what is out, or no ready object. |
| `JournalRuns.InvalidateIsDurable` | assets/hyprland-input/scope-provenance.hpp:410-423 | Once poisoning has reported success, every process that could start finds the journal poisoned. |
| `JournalRuns.PoisonIsPermanent` | assets/hyprland-input/scope-provenance.hpp:337-376 | From then on no sequence of operations, crashes and reopenings reaches a ready journal that is not poisoned, forwards a press, or drops an intent. |
| `JournalRuns.FailedStaysFailed` | assets/hyprland-input/scope-provenance.hpp:433 | A failed object stays failed and touches the disk no more. |
| `JournalRuns.PressRefusal` | assets/hyprland-input/scope-plugin.cpp:722-728 | An intent is refused only if the journal is poisoned or failed, or the same key or button is already recorded. |
| `JournalRuns.BindRefusal` | assets/hyprland-input/scope-provenance.hpp:377-386 | A source process is refused only if the journal is poisoned or failed, or intents of another one are pending. |
| `JournalRuns.ReleaseSucceeds` | assets/hyprland-input/scope-provenance.hpp:400-409 | A release drops the one entry and no other, and it does succeed in a working journal if the disk obeys. |
| `JournalRuns.PressSucceeds` | assets/hyprland-input/scope-provenance.hpp:387-398 | An intent that can be recorded is, if the disk obeys: the one new entry is in the journal and the source stays. |
| `JournalRuns.BindSucceeds` | assets/hyprland-input/scope-provenance.hpp:377-386 | A live source can be bound if nothing of another is pending and the disk obeys. |
| `RecoveryJournal.Journal.Open` | assets/hyprland-input/scope-provenance.hpp:337-376 | The imperative open() does exactly what the step function says: one attempt, the snapshot decoded, the marker honoured, both synced before the object is ready; if the disk obeys, the snapshot alone decides. |
| `RecoveryJournal.Journal.OpenExisting` | assets/hyprland-input/scope-provenance.hpp:357-366 | An existing snapshot is decoded and synced; a corrupt one is left alone. |
| `RecoveryJournal.Journal.BindSource` | assets/hyprland-input/scope-provenance.hpp:377-386 | Binding a source persists it first, and only with nothing pending. |
| `RecoveryJournal.Journal.PreparePress` | assets/hyprland-input/scope-provenance.hpp:387-398 | The entry is inserted and persisted; the result is Fresh only if the new snapshot is durable, and what the step function says of a durable one if the disk obeys. |
| `RecoveryJournal.Journal.Release` | assets/hyprland-input/scope-provenance.hpp:400-409 | The snapshot without the entry is durable before the entry is dropped from memory, and becomes durable if the disk obeys. |
| `RecoveryJournal.Journal.Invalidate` | assets/hyprland-input/scope-provenance.hpp:410-423 | The marker is durable before the poisoned snapshot is written; both become durable if the disk obeys and there is no marker yet. |
| `RecoveryJournal.Journal.Persist` | assets/hyprland-input/scope-provenance.hpp:560-590 | Write in full, sync, rename, sync the directory; the directory afterwards is that of the outcome reached, and the object stays ready only if the snapshot is durable, which it is if the disk obeys. |
| `RecoveryJournal.Journal.WriteNext` | assets/hyprland-input/scope-provenance.hpp:570-582 | Partial writes add up to exactly the snapshot before it is synced, and get there if the disk obeys. |
| `RecoveryJournal.Journal.Encoded` | assets/hyprland-input/scope-provenance.hpp:515-538 | The byte buffer filled field by field is the encoding of the snapshot without the excluded entry. |
| `RecoveryJournal.Journal.Decode` | assets/hyprland-input/scope-provenance.hpp:539-559 | A file of admissible size is accepted exactly if it is the encoding of some valid snapshot, and the object then holds that snapshot. |
| `RecoveryJournal.ListedSkips` | assets/hyprland-input/scope-provenance.hpp:525-531 | The entries appended in ascending order while skipping one are the body of the set without it. |
| `RecoveryJournal.ImagePassesChecks` | assets/hyprland-input/scope-provenance.hpp:539-551 | Every encoding passes the header checks, and its header fields read back as written. |
| `Disk.Directory.RenameNext` | assets/hyprland-input/scope-provenance.hpp:583-585 | The environment: after a rename the process sees the new file, and a crash may leave either. |
| `Disk.Directory.SyncDirectory` | assets/hyprland-input/scope-provenance.hpp:588 | The environment: only a synced directory is certain to survive. |
| `Disk.Directory.Reboot` | assets/hyprland-input/scope-provenance.hpp:337-376 | The environment: a crash leaves one of the files and markers that were possible. |
| `Codec.DecodeEncode` | assets/hyprland-input/scope-provenance.hpp:515-559 | Decoding an encoded snapshot gives the snapshot back, for every valid one. |
| `Codec.MeaningImage` | assets/hyprland-input/scope-provenance.hpp:539-559 | Conversely, bytes that have a meaning are the encoding of it. |
| `Codec.EncodeInjective` | assets/hyprland-input/scope-provenance.hpp:515-538 | Different snapshots have different encodings. |
| `Codec.EntryLimitUnreachable` | assets/hyprland-input/scope-provenance.hpp:393-395 | Because all codes are bounded, the entry limit is never reached by a new code. |
| `Codec.ListingBounds` | assets/hyprland-input/scope-provenance.hpp:316-318 | Every valid snapshot has at most MaxEntries entries and so fits MaxBytes. |
| `Codec.ListingEnumerates` | assets/hyprland-input/scope-provenance.hpp:525-532 | The entries are listed once each, and all of them. |
| `Codec.BurstRejected` | assets/hyprland-input/scope-provenance.hpp:539-546 | Changing up to four consecutive bytes of an accepted snapshot gives bytes that are rejected. |
| `Codec.WholeFileResidue` | assets/hyprland-input/scope-provenance.hpp:535-537 | The register over a whole accepted snapshot, digest included, has one fixed value. |
| `Codec.FileLayout` | assets/hyprland-input/scope-provenance.hpp:515-538 | The file as bytes: "ODSJNL02", version 2, the instance, the counts, flag, process and ticks each at its own place, words lowest byte first, and the two checksums of what is before them. |
| `Codec.EntryLayout` | assets/hyprland-input/scope-provenance.hpp:525-532 | Entry i at 256 + 8 i: its letter, three zeros and its code; keys, then buttons, then modifiers, each in ascending order. |
| `Codec.PaddingIsZero` | assets/hyprland-input/scope-provenance.hpp:516-524 | What is left of the two fixed fields is zero. |
| `Codec.SnapshotMeans` | assets/hyprland-input/scope-provenance.hpp:549-557 | What may be recorded: the bounds of the codes, and a process that is none, or not init, with one to 32 digits. |
| `Codec.CodeMeans` | assets/hyprland-input/scope-provenance.hpp:482-484 | Key and button codes go up to 767, modifier fields up to 3. |
| `JournalSpec.InstanceMeans` | assets/hyprland-input/scope-provenance.hpp:340-341 | An instance is "i1-" and one to 128 lower-case hexadecimal digits. |
| `JournalSpec.PendingMeans` | assets/hyprland-input/scope-provenance.hpp:336 | Something is pending unless the journal is ready and unpoisoned and holds no code of any kind. |
| `Words.PutGet` | assets/hyprland-input/scope-provenance.hpp:507-514 | put32 undoes get32 on every four bytes. |
| `Words.GetPut` | assets/hyprland-input/scope-provenance.hpp:507-514 | get32 undoes put32 on every 32-bit number. |
| `Words.LittleEndian` | assets/hyprland-input/scope-provenance.hpp:507-514 | The lowest byte of a word comes first. |
| `Crc.ComputeChecksum` | assets/hyprland-input/scope-provenance.hpp:499-506 | The nested loop over bits computes the checksum function, which `Division` pins down. |
| `Division.RegisterIsRemainder` | assets/hyprland-input/scope-provenance.hpp:499-506 | Polynomial division over GF(2): the register after a message, of any length, is the remainder of the message, followed by 32 zero bits and with its first 32 bits inverted, by x^32 + x^26 + x^23 + x^22 + x^16 + x^12 + x^11 + x^10 + x^8 + x^7 + x^5 + x^4 + x^2 + x + 1. |
| `Division.RemainderIsUnique` | assets/hyprland-input/scope-provenance.hpp:499-506 | No other polynomial of degree below 32 is such a remainder, so the two determine each other. |
| `Division.PolynomialIsGenerator` | assets/hyprland-input/scope-provenance.hpp:503 | Bit 31 - i of the constant is set exactly for the exponents i of that polynomial below 32. |
| `Division.StepPoly` | assets/hyprland-input/scope-provenance.hpp:503 | One bit step multiplies the register by x and reduces it. |
| `Division.CheckValue` | assets/hyprland-input/scope-provenance.hpp:499-506 | The checksum of the bytes "123456789" is 0xcbf43926, which fixes initial value, complement, bit order and byte order. |
| `Crc.MaskedStep` | assets/hyprland-input/scope-provenance.hpp:503 | The branchless mask of the source is the conditional tap. |
| `Crc.StepInjective` | assets/hyprland-input/scope-provenance.hpp:503 | One bit step is a bijection of the register. |
| `Crc.FoldInjective` | assets/hyprland-input/scope-provenance.hpp:499-506 | Feeding the same bytes keeps different registers different. |
| `Crc.FeedIsTableLookup` | assets/hyprland-input/scope-provenance.hpp:502-503 | Eight bit steps are the byte-wise table step of section 8 of RFC 1952. |
| `Crc.FoldWordInjective` | assets/hyprland-input/scope-provenance.hpp:499-506 | Four consecutive bytes are determined by the register before and after them. |
| `Crc.BurstChangesChecksum` | assets/hyprland-input/scope-provenance.hpp:499-506 | Equal-length inputs that differ only within four consecutive bytes have different checksums. |
| `Crc.DigestResidue` | assets/hyprland-input/scope-provenance.hpp:535-537 | Feeding a message and its own checksum gives a fixed register. |
| `Scope.State.NextLifeRemembers` | assets/hyprland-input/scope-plugin.cpp:722-744 | At any point of any run, whatever a crash leaves, the next process that opens the journal holds the intent of every input that was admitted and not seen released. |
| `Scope.State.PendingIntent` | assets/hyprland-input/scope-plugin.cpp:722-728 | The intent is durable before the down is admitted, and new, if it is a key's or a button's; a refusal has one of the listed reasons. |
| `Scope.State.ForeignInput` | assets/hyprland-input/scope-plugin.cpp:729-731 | Foreign input while intents are pending leaves the journal poisoned or failed, with every intent still in it; otherwise it changes nothing. |
| `Scope.State.FinishKeyRelease` | assets/hyprland-input/scope-plugin.cpp:732-735 | A key leaves the ledger only when its up was delivered and its intent is retired. |
| `Scope.State.FinishButtonRelease` | assets/hyprland-input/scope-plugin.cpp:736-739 | The same for a button. |
| `Scope.State.FinishModifierRelease` | assets/hyprland-input/scope-plugin.cpp:740-744 | The same for the modifiers, field by field. |
| `Scope.State.DispatchOwnedUp` | assets/hyprland-input/scope-plugin.cpp:1096-1106 | An up of the owned pointer is dispatched only when every aggregate entry it erases is the owned pointer's; it goes on record with what it took, and every other device keeps its holds. |
| `Scope.State.DrainButtons` | assets/hyprland-input/scope-plugin.cpp:1096-1106 | Foreign button events may arrive before every dispatched up. Every hold that is gone afterwards was taken by an up on record, and those of the owned pointer took none but its own; if nothing interferes, no other device loses a hold. |
| `Scope.State.DrainKeys` | assets/hyprland-input/scope-plugin.cpp:1083-1091 | The drain touches the owned keyboard only, drops a key only once released, and reports whatever it could not release. |
| `Scope.State.Settle` | assets/hyprland-input/scope-plugin.cpp:1107-1122 | The account after a drain: failed exactly if something is left or a device disagrees, and the flags that follow from it. |
| `Scope.State.Revoke` | assets/hyprland-input/scope-plugin.cpp:1054-1125 | Ends the lease. Success leaves the ledgers empty, the owned pointer with nothing in the aggregate list, and nothing admitted unreleased. Where another keyboard holds a key of the ledger, or any key while modifiers are owned, or owned buttons are not known to be owned alone, everything is left as it is and the plugin has failed, unless the account is settled. A success otherwise needs both owned devices, or a clean end before, and leaves the owned keyboard without a key down. Anywhere else, if the compositor, the devices and the disk obey, it succeeds exactly if the journal works as far as it is needed, both owned devices are there or everything was clean before, and the keyboard holds nothing that is not in a ledger; and then it may be repeated with the same success. Every hold that is gone was taken by an up on record. |
| `Scope.State.Fence` | assets/hyprland-input/scope-plugin.cpp:1593 | A request that finds the lease broken ends it first. |
| `Scope.State.Allow` | assets/hyprland-input/scope-plugin.cpp:1032-1053 | Input is allowed exactly in a live, unfenced scope: armed, not failed, before the deadline, the scene unchanged, the bound guardian connected and alive, both owned devices there and not destroyed. Otherwise the plugin ends disarmed. |
| `Scope.State.OnKey` | assets/hyprland-input/scope-plugin.cpp:1911-1946 | A key down is forwarded only if the scene is unchanged, the lease stands and is not over, the bound guardian is connected and alive and both owned devices are there; with its intent durable, and then it is in the ledger. Otherwise, unless it is the up of an owned key, the event ends the lease. In scope it is refused only if the intent could not be recorded, and one that can be is, if the disk obeys. The up of a held key takes it out of ledger and journal if everything obeys. A withdrawn owner's keys move nothing, and neither does a late up after a clean release. Another keyboard poisons what is pending. |
| `Scope.State.OnMod` | assets/hyprland-input/scope-plugin.cpp:1947-1971 | The same for modifier fields; a partly recorded event is refused as a whole, and one without fields releases all of them. |
| `Scope.State.OnButton` | assets/hyprland-input/scope-plugin.cpp:1972-2005 | The same for buttons, at the bound destination only. An up of a held button never costs another device a hold, and takes the button out of ledger and journal under exclusive ownership if everything obeys. A foreign event leaves lease and ledgers alone, poisons what is pending and ends exclusive ownership. |
| `Scope.State.OwnedButtonUp` | assets/hyprland-input/scope-plugin.cpp:1993-1997 | An ordinary up of the owned pointer takes exactly the entries of its own code out of the aggregate list, whoever holds them, and happens only while they are all its own. |
| `Scope.State.ReleaseHeldButton` | assets/hyprland-input/scope-plugin.cpp:1985-1997 | Without exclusive ownership the up of a held button is not forwarded, and no other device loses a hold. |
| `Scope.State.Arm` | assets/hyprland-input/scope-plugin.cpp:1655-1687 | arm succeeds exactly if the conditions hold that are written out: an owner that is not lost, a snapshot of the last 250 ms with its scene unchanged, the guardian's only live keyboard and pointer, the same as before, nothing held by anyone, and room; then the deadline is bounded by the request and by 250 ms, and the devices are the guardian's. |
| `Scope.State.Renew` | assets/hyprland-input/scope-plugin.cpp:1651-1654 | A deadline is replaced exactly by a renewal from the same connection with the same token in a live scope. |
| `Scope.State.RenewFenced` | assets/hyprland-input/scope-plugin.cpp:1643-1654 | A request to renew is granted exactly to the bound connection with the bound token, in a live scope and for a range in bounds; the lease then has the values it asks for, and otherwise is kept or ended. |
| `Scope.State.ArmFenced` | assets/hyprland-input/scope-plugin.cpp:1655-1687 | A request to arm starts the lease it asks for where none stands, or leaves the lease at most ended. |
| `Scope.State.ReleaseAll` | assets/hyprland-input/scope-plugin.cpp:1640-1642 | A positive reply means that nothing admitted is left unreleased, and is given if the plugin may release, can, and everything obeys. Every reply says whether the plugin is armed, how many keys and buttons are owned, and whether nothing is. |
| `Scope.State.ReleaseAllTagged` | assets/hyprland-input/scope-plugin.cpp:1629-1639 | A cleanup from the armed connection, with a command of 48 hexadecimal digits and its own start ticks, leaves a receipt under its own command and process with the truth about what is left, and a positive one if the plugin may release, can, and everything obeys; any other is refused without a trace. |
| `Scope.State.ReleaseStatus` | assets/hyprland-input/scope-plugin.cpp:1621-1628 | The read-only lookup answers exactly for a command completed in the last half second by the asking process, with that command's own outcome. |
| `Scope.State.Drop` | assets/hyprland-input/scope-plugin.cpp:1688-1694 | Losing the armed connection is a revocation, and succeeds if the plugin may release, can, and everything obeys. |
| `Scope.State.Destroy` | assets/hyprland-input/scope-plugin.cpp:2122 | The same for losing one of the owned devices, which is released before it is marked; no other device is. |
| `Scope.State.Capture` | assets/hyprland-input/scope-plugin.cpp:436-458 | A capture is taken exactly under the listed conditions; it gives a guardian one ledger, whose adoption chain starts at the asking process. |
| `Scope.State.OwnerReconnect` | assets/hyprland-input/scope-plugin.cpp:464-509 | An adoption is accepted exactly under the source's conditions (`Owners.AdoptionNeeds` writes them out); it extends the chain by one, fences the guardian, disarms, and releases nothing. A refused one changes nothing. |
| `Scope.State.Reconcile` | assets/hyprland-input/scope-plugin.cpp:548-570 | A settling command is taken exactly from the current recovery process and only if none other is recorded; it revokes before anything is released, and then releases what is still held, if the plugin may release, can, and everything obeys. |
| `Scope.State.RecoverPending` | assets/hyprland-input/scope-plugin.cpp:1807-1891 | A successful recovery with intents pending leaves nothing out and costs the owner its admission: it ends revoked and fenced. It takes exactly the holds whose code has a pending intent, and so takes another device's hold if and only if one has. It succeeds whenever everything obeys with intents pending in a working journal, nothing armed, nothing held by anything but the source and no more in the ledgers than in the journal. |
| `Scope.State.RecoverAll` | assets/hyprland-input/scope-plugin.cpp:1846-1881 | Recovery takes out of the ledgers exactly what the journal lists, and empties the journal; it succeeds whenever everything obeys. |
| `Scope.State.RecoverButtons` | assets/hyprland-input/scope-plugin.cpp:1869-1881 | Recovery of buttons keeps the ownership invariant; a code whose intent or ledger entry is dropped is held by nobody any more, and holds of other codes stay. |
| `Scope.RecoveryTakesAnothersHold` | assets/hyprland-input/scope-plugin.cpp:1869-1881 | A run in which recovery does take a hold of another device: a stranger presses before any intent is pending, the owned pointer presses the same button, the lease lapses, and recovery releases the button for both. |
| `Scope.State.Run` | assets/hyprland-input/scope-plugin.cpp:1032-1141 | Over whole runs: every admission comes from an event of its own, a press offered while the scene was unchanged, inside a lease that some request granted; admission once lost stays lost although recovery clears one of its flags; no chain is replaced, it only gets longer, and a new one starts at the process that asked for its ledger; every hold that is gone was taken by an up on record, an owned pointer's ups took none but its own, and a recovery's ups occur only if one was asked for; a cleanup's outcome changes only under its own command. |
| `Scope.State.Apply` | assets/hyprland-input/scope-plugin.cpp:1032-1141 | Every single event keeps all invariants and takes effect: a lapse, the loss of the armed connection or of an owned device, or a release ends the lease; an owned press that does not meet every condition does, too; a request that may be granted is; and a device, connection, process, snapshot or clock event is noted. The lease is kept or ended, unless the event is an arm where none stands, or a renewal from the bound connection with the bound token in a live scope; then it is the one this request asks for, granted now. A ledger with a recovery process is opened only by a capture, with the chain of the asking process alone. |
| `Scope.State.constructor` | assets/hyprland-input/scope-plugin.cpp:1807-1891 | A new life of the plugin starts with empty ledgers on any seat whatever, also one on which its predecessor left holds, and remembers which inputs are out. |
| `History.OwnerReplaced` | assets/hyprland-input/scope-plugin.cpp:495-504 | Updating one account keeps every chain and takes back no loss. |
| `History.OwnerAdopted` | assets/hyprland-input/scope-plugin.cpp:464-509 | An adoption keeps all other chains and extends one. |
| `History.UpTakes` | scripts/computer-feasibility/hyprland-owned-release-counterexample.cpp:53-54 | What an up takes out of the aggregate list is what its record says. |
| `History.FollowsOn` | assets/hyprland-input/scope-plugin.cpp:464-570 | What one moment keeps of another adds up over any number of them. |
| `Owners.CaptureStartsChain` | assets/hyprland-input/scope-plugin.cpp:445-458 | A captured ledger has the trivial chain, the guardian, uid and secret it was captured with, and no losses. |
| `Owners.ReconnectExtendsChain` | assets/hyprland-input/scope-plugin.cpp:464-509 | Each accepted adoption adds one link from an exited predecessor to a live process that is new to the chain, and the guardian is fenced from the first link on. |
| `Owners.AdoptionNeeds` | assets/hyprland-input/scope-plugin.cpp:472-509 | A claim is granted exactly if pid, start and uid of the guardian, the secret of the capture, the uid of the capture, and the current recovery process are those on record, that process has exited, the command is new and well formed, there is room, and a descriptor was obtained; one of these wrong, and it is refused. Nothing changes but the adoption, the recovery process and the fence. |
| `Owners.AppliedAtMostOnce` | assets/hyprland-input/scope-plugin.cpp:488 | A command id on record is refused by every later state of the ledger, whoever replays it. |
| `Owners.ChainKept` | assets/hyprland-input/scope-plugin.cpp:464-509 | Nothing but an adoption affects a chain. |
| `Seat.ReleaseErasesExactly` | scripts/computer-feasibility/hyprland-owned-release-counterexample.cpp:47-58 | A release by one device loses another device's hold exactly if that device holds the same button. |
| `Seat.ErasedKeepsOthers` | scripts/computer-feasibility/hyprland-owned-release-counterexample.cpp:53-54 | A release erases all and only the entries with its code. |
| `Seat.Pipeline.Press` | scripts/computer-feasibility/hyprland-owned-release-counterexample.cpp:47-58 | A press is appended, and the receiver sees it unless it already is down. |
| `Seat.Pipeline.Release` | scripts/computer-feasibility/hyprland-owned-release-counterexample.cpp:47-58 | A release empties the code, and the receiver is up afterwards. |
| `Seat.Pipeline.OverlapCounterexample` | scripts/computer-feasibility/hyprland-owned-release-counterexample.cpp:86-100 | The counterexample itself: the receiver sees the human's button go up early, and never sees the human release it. |
| `Deadline.LeaseIsBounded` | assets/hyprland-input/scope-deadline.hpp:10-16 | A granted lease ends after now, at the absolute time or the asked length from now, whichever is first, and within 250 ms; it is granted exactly for requests in range. |
| `Deadline.LeaseLosesUnderOneMillisecond` | assets/hyprland-input/guardian.c:299-305 | From the guardian's microsecond deadline D to the plugin's expiry nothing overflows, and the expiry lies in [D - 999 us, D]. |
| `Deadline.AsksWhenAMillisecondRemains` | assets/hyprland-input/guardian.c:299-302 | The guardian asks exactly if between one millisecond and 250 ms remain. |
| `Binding.Composed` | assets/hyprland-input/guardian.c:299-305 | From the moment of the request to the plugin's expiry, whenever the request arrives: a lease is granted while the deadline D is ahead and the clock in range, and ends in [D - 999 us, D]. |
| `Binding.AskArm` | assets/hyprland-input/guardian.c:310-322 | The arm over a connection that may lose request or answer: it is granted if the plugin may arm and everything obeys, and then the plugin's lease ends within a millisecond before the guardian's deadline. |
| `Binding.AskRenew` | assets/hyprland-input/guardian.c:310-322 | The same for a renewal, which shows no rejected input. |
| `Binding.Received` | assets/hyprland-input/guardian.c:311-321 | An answer is lost, a refusal, a grant, or incomplete; only a lost one costs the connection. |
| `Binding.Bind` | assets/hyprland-input/guardian.c:295-322 | Local refusals leave no trace; once asked, scope may have been acquired unless the answer is a complete refusal. If everything obeys, the lease is granted where the plugin may arm, and ends within a millisecond before the guardian's deadline. |
| `Binding.Taken` | assets/hyprland-input/guardian.c:311-321 | An answer counts only as what it completely says, and a grant only while its deadline is ahead. |
| `Binding.Begin` | assets/hyprland-input/guardian.c:829-840 | An action begins with a lease from before the plugin was asked and a scope the plugin granted; a refusal by the plugin is the guardian's end, and if everything obeys the two deadlines agree to the millisecond. |
| `Binding.Extend` | assets/hyprland-input/guardian.c:822-828 | The scope deadline moves, and only forward, once the plugin has granted it with no rejected input; if everything obeys, it does and the two deadlines agree to the millisecond. |
| `Cleanup.ReleaseAll` | assets/hyprland-input/guardian.c:680-746 | Guardian, plugin and a connection that loses or delays any message: if a cleanup is acknowledged, the plugin executed it with empty ledgers and nothing left out, under exactly its command id if it is tagged, and everything the guardian pressed is up; at most one release and one status are asked; no release is asked when none was acquired. On the guardian's own connection, to a plugin that may release and can, it is acknowledged exactly if the answer has the counter of rejected inputs, if everything obeys, even if the answer to a tagged release is lost. |
| `Cleanup.Ask` | assets/hyprland-input/guardian.c:711-724 | On a connection one release is asked, and a status only after a tagged release that was not answered; with no connection, a status at most, and only for a tagged one. A plugin that may release and can gives a positive answer if everything obeys, to the status if that to a tagged release is lost. |
| `Cleanup.AskRelease` | assets/hyprland-input/guardian.c:711-714 | A reply, if one arrives, is the plugin's own to this request; a request without one may still be executed later, once. If everything obeys, a plugin that may release and can answers that nothing is left. |
| `Cleanup.AskStatus` | assets/hyprland-input/guardian.c:715-724 | A positive status confirms the execution of the lost request even while it could still have been pending; and if the request was executed with nothing left, within half a second, and everything obeys, the status is positive. |
| `Cleanup.Lookup` | assets/hyprland-input/scope-plugin.cpp:1621-1628 | What the read-only lookup says of a fresh receipt. |
| `Cleanup.Execute` | assets/hyprland-input/scope-plugin.cpp:1629-1642 | What the plugin's execution of the request puts on record, and when its reply confirms the cleanup. |
| `Cleanup.Conclude` | assets/hyprland-input/guardian.c:725-745 | Acknowledged exactly with the local sync and a positive reply that says acknowledged, not armed, no keys, no buttons, and counts the rejected inputs. A reply without the counter, or with another count than before, makes the guardian fail, and nothing else does. |
| `Cleanup.AskAndConclude` | assets/hyprland-input/guardian.c:709-744 | The plugin's half and what is made of it: acknowledged only if this command was executed with nothing left and the answer has the counter, and acknowledged then if the plugin will answer; a changed count is a failure. |
| `Cleanup.ReleaseLocally` | assets/hyprland-input/guardian.c:689-700 | The guardian's half: synced only with everything up, and nothing is sent unless an action was broken off. |
| `Cleanup.Link.Registered` | assets/hyprland-input/guardian.c:883-884 | From registration on the guardian knows whether a lost cleanup can be asked about. |
| `Cleanup.Submit` | assets/hyprland-input/guardian.c:851-857 | A line is performed exactly if it is accepted; after a refused one the lease is given up with nothing held if the cleanup was acknowledged, and the guardian has failed otherwise. |
| `Cleanup.Turn` | assets/hyprland-input/guardian.c:767-779 | A turn of the stepper: an action is done only if its plan is used up and its cleanup was acknowledged, with nothing left in the plugin; if everything obeys, it is done exactly if no input was rejected, and otherwise the guardian has failed. |
| `Cleanup.Meanwhile` | assets/hyprland-input/scope-plugin.cpp:1587-1687 | Whatever else happens to the plugin leaves the record of a fresh command id alone. |
| `Guardians.Guardian.Perform` | assets/hyprland-input/guardian.c:851-857 | An action starts exactly if the guardian is bound and the line is accepted, and then with exactly the events the line stands for. |
| `Guardians.Guardian.Step` | assets/hyprland-input/guardian.c:767-808 | What was sent is exactly the inputs of the part of the plan stepped through, each when due and while its lease and scope deadline stood, in groups of at most 32. A step that neither fails nor finishes stops only at a full group, a gate that waits for its permit, past a gate that had it, or at an event that is not due yet; and if nothing interrupts it, it fails only past its lease or scope deadline, or after too many gates. |
| `Guardians.Guardian.Alive` | assets/hyprland-input/guardian.c:120-127 | Nothing is sent past the action's lease or the scope deadline. |
| `Guardians.Guardian.Send` | assets/hyprland-input/guardian.c:791-806 | One event: past its checks it is on the wire and in the ledger. |
| `Guardians.Guardian.PassGate` | assets/hyprland-input/guardian.c:782-790 | A gate is announced at most once, with the next serial, and passed only with a permit of its own; it fails only if the announcement does or the serials are used up. |
| `Guardians.Guardian.Permit` | assets/hyprland-input/guardian.c:845-850 | Only the permit that is waited for is taken, and only once. |
| `Guardians.Guardian.Renewed` | assets/hyprland-input/guardian.c:822-828 | A renewal moves the scope deadline, and only ever forward. |
| `Guardians.Guardian.Begin` | assets/hyprland-input/guardian.c:829-840 | An action gets a lease of its own, counted from before the plugin was asked, exactly if none is under way, its length is in range and the plugin granted the scope. |
| `Guardians.Guardian.Complete` | assets/hyprland-input/guardian.c:773-778 | An action ends with an empty ledger, and without a lease only if its cleanup was acknowledged. |
| `Guardians.Guardian.Reject` | assets/hyprland-input/guardian.c:852-856 | A refused line gives up the lease with nothing held, if the cleanup was acknowledged. |
| `Guardians.Guardian.ReleaseOwned` | assets/hyprland-input/guardian.c:689-696 | After any prefix of a plan, the ups sent empty the ledger and balance the wire; after a whole plan there is nothing to send. |
| `Guardians.InputsPlay` | assets/hyprland-input/guardian.c:781-806 | A plan without its gates holds what the plan holds. |
| `Guardians.PlanSendable` | assets/hyprland-input/guardian.c:660-673 | A plan uses only keys 1 to 247 and buttons 272 to 279, the ranges of the ledgers. |
| `Planner.Plan.Fill` | assets/hyprland-input/guardian.c:589-659 | A line is accepted exactly if it has a meaning and can be finished within the lease, and the table then holds the events of that meaning; the 4096-step limit never decides. |
| `Planner.Plan.PointerPlan` | assets/hyprland-input/guardian.c:599-621 | The branch for moves, presses, clicks and drags. |
| `Planner.Plan.WheelPlan` | assets/hyprland-input/guardian.c:622-632 | The branch for the wheel fills the table with exactly the events of the gesture the line means (`Lines` and `Effects` say what that is). |
| `Planner.Plan.KeysPlan` | assets/hyprland-input/guardian.c:633-642 | The branch for chords by code and by name. |
| `Planner.Plan.CharactersPlan` | assets/hyprland-input/guardian.c:551-575 | A text is accepted exactly if it is the hexadecimal UTF-8 of at most 512 printable, typable characters, and the plan types their chords in order. |
| `Planner.Plan.ReplacePlan` | assets/hyprland-input/guardian.c:645-656 | The branch that clicks into a field, selects all, and types or erases. |
| `Planner.ParseInteger` | assets/hyprland-input/guardian.c:463-474 | The 64-bit guard refuses only numbers that are out of range anyway. |
| `Planner.ParseModifiers` | assets/hyprland-input/guardian.c:580-588 | At most four different modifiers. |
| `Planner.ParseCodes` | assets/hyprland-input/guardian.c:635-640 | A key that is already part of the chord is refused. |
| `Grammar.MeaningPerformable` | assets/hyprland-input/guardian.c:589-659 | Whatever the grammar yields can be performed. |
| `Grammar.OneReading` | assets/hyprland-input/guardian.c:551-575 | A hexadecimal text has one reading. |
| `Gestures.Balanced` | assets/hyprland-input/guardian.c:540-544 | From an empty ledger no gesture presses what is held or releases what is not, and it ends with everything up. |
| `Gestures.Timely` | assets/hyprland-input/guardian.c:599-658 | Due times never decrease and end where the gesture does: 80 ms for each further click, 30 ms for each further notch, at the end of a drag, after 50 ms for a replacement; and the table always has room. |
| `Gestures.TextTyped` | assets/hyprland-input/guardian.c:551-575 | The events of a text type exactly its characters, in order, and leave shift up. |
| `Gestures.Bracket` | assets/hyprland-input/guardian.c:576-579 | Keys pressed in order and released in reverse around something neutral are neutral. |
| `Plans.AcceptedPlan` | assets/hyprland-input/guardian.c:589-659 | Every accepted line: balanced, ordered in time, within the table, and due to end 100 ms before its lease. |
| `Plans.TypesItsText` | assets/hyprland-input/guardian.c:643-644 | A text line types exactly the characters it spells. |
| `Plans.TextLineRoundTrip` | assets/hyprland-input/guardian.c:551-575 | Every text within the character limit has a line that is read back as that text: neither the byte buffer nor the step table refuses it. |
| `Lines.LineRoundTrip` | assets/hyprland-input/guardian.c:589-659 | A writer spells every gesture there are words for, in any keymap and with any way of writing coordinates that is read back: M P Q D L V W Y Z K T E, numbers in decimal, x before y. Every such line means the gesture it was written for. |
| `Lines.VReads` | assets/hyprland-input/guardian.c:599-621 | V means up to three clicks with any modifiers that have a name. |
| `Lines.ZReads` | assets/hyprland-input/guardian.c:595-621 | Z means a timed drag with any such modifiers. |
| `Lines.YReads` | assets/hyprland-input/guardian.c:595-632 | Y means the wheel with any such modifiers. |
| `Lines.JReads` | assets/hyprland-input/guardian.c:633-642 | J means the chord of the name. |
| `Effects.ClicksDo` | assets/hyprland-input/guardian.c:599-621 | Wherever the pointer was: the button goes down and up so many times, each time at the point and with exactly the modifiers down; nothing is down afterwards. |
| `Effects.DragDoes` | assets/hyprland-input/guardian.c:599-621 | The button goes down once, at the start, and up once, where the path ends, with exactly the modifiers down, and the pointer visits the points of the path in order. |
| `Effects.WheelDoes` | assets/hyprland-input/guardian.c:622-632 | So many notches on the axis in the direction, each at the point and with exactly the modifiers down. |
| `Effects.WheelLineScrolls` | assets/hyprland-input/guardian.c:622-632 | From the line to the screen: "W up n x y" scrolls by -n on axis 0 and not at all on axis 1, at (x, y); down is positive, left and right are axis 1. |
| `Effects.ChordDoes` | assets/hyprland-input/guardian.c:633-642 | Each key goes down on top of those before it, no button or wheel moves, and nothing is down afterwards. |
| `Effects.TextDoes` | assets/hyprland-input/guardian.c:551-575 | The chord of each character in turn; no button or wheel moves, and nothing is down afterwards. |
| `Effects.ReplaceDoes` | assets/hyprland-input/guardian.c:645-656 | One click of the left button at the point with no key down, then the chord that selects, then the filling. |
| `Keymaps.FindKeystroke` | assets/hyprland-input/guardian.c:510-524 | The search over keys, plain before shifted, finds the chord of the specification. |
| `Keymaps.KeystrokeMeans` | assets/hyprland-input/guardian.c:510-524 | A keystroke is the first key that gives the character or symbol as it is, or the left shift key and the first one that gives it shifted; there is none only if no key gives it plainly. |
| `Keymaps.ModifierMeans` | assets/hyprland-input/guardian.c:489-503 | A modifier is the first key whose only plain symbol is Control_L, Shift_L, Alt_L or Super_L. |
| `Keymaps.FindNamedChord` | assets/hyprland-input/guardian.c:526-539 | The loop over plus signs computes the named chord; modifiers repeat at most never, and four at most. |
| `Utf8.DecodeOne` | assets/hyprland-input/guardian.c:559-572 | One round of the decoder: the next character with its own octets, or a refusal exactly if no printable character's octets come next. |
| `Utf8.AnnouncedIsEncoded` | assets/hyprland-input/guardian.c:561-570 | Octets that pass the checks are the encoding of section 3 of RFC 3629 of their value. |
| `Utf8.LeadOfEncode` | assets/hyprland-input/guardian.c:561-567 | Conversely every character's octets pass the checks. |
| `Utf8.Table` | assets/hyprland-input/guardian.c:561-570 | The encoding is the table of section 3 of RFC 3629: the high bits of each octet say its place, the others make up the character. |
| `Utf8.PrefixFree` | assets/hyprland-input/guardian.c:559-570 | No character's octets begin another's. |
| `Utf8.EncodeAllInjective` | assets/hyprland-input/guardian.c:551-575 | Different texts have different octets. |
| `Utf8.Cancel` | assets/hyprland-input/guardian.c:551-575 | A text whose octets begin with those of a decoded part begins with that part. |
| `ReplyParser.Parser.ParseReply` | assets/hyprland-input/guardian.c:200-246 | A terminated reply is accepted exactly if it is one, and the record then holds its fields; no index leaves the reply. |
| `ReplyParser.Parser.ParseFields` | assets/hyprland-input/guardian.c:209-243 | The loop over the fields; the 818-entry table never runs out on a list that could be completed. |
| `ReplyParser.Parser.Repeated` | assets/hyprland-input/guardian.c:214-219 | The duplicate test by offset and closing quote agrees with comparing names, and looks at nothing past the name just read. |
| `ReplyParser.Parser.JsonString` | assets/hyprland-input/guardian.c:189-199 | A string of fewer than cap plain characters, copied out exactly. |
| `ReplyParser.Parser.ParseNumber` | assets/hyprland-input/guardian.c:225-229 | A canonical number in 64 bits; the overflow guard refuses exactly what does not fit. |
| `ReplyParser.CollectAgrees` | assets/hyprland-input/guardian.c:231-239 | The record has a value exactly if a field of that name and kind gives it, for each of the eight names and in whatever order the fields came. |
| `ReplySyntax.Sound` | assets/hyprland-input/guardian.c:200-246 | Whatever is accepted is a flat object with distinct names, one of them "ok", written out with blanks (section 4 of RFC 8259). |
| `ReplySyntax.Complete` | assets/hyprland-input/guardian.c:200-246 | Conversely every such text is accepted and yields its fields. |
| `ReplyGrammar.FieldShorter` | assets/hyprland-input/guardian.c:167-173 | A field takes at least four characters. |
| `ReplyGrammar.FieldsLength` | assets/hyprland-input/guardian.c:167-173 | So no list of fields is longer than a fifth of its text. |
| `RandR.Validate` | scripts/computer-feasibility/main_scratch_randr.py:177-254 | A snapshot is accepted exactly if it is representable, stated without any order of checking. An accepted CRTC has the sides of its mode if it is not turned or turned by a half, and swapped if turned by one or three quarters; the framebuffer is in range. |
| `RandR.WrittenOut` | scripts/computer-feasibility/main_scratch_randr.py:201-252 | What is asked of one CRTC, by the numbers, both ways: unit transforms, filters, panning, a canonical disabled one, or one of four rotations, sides that follow from it, a place inside the framebuffer and outputs assigned to it. |
| `RandR.ExtentIsTurned` | scripts/computer-feasibility/main_scratch_randr.py:231-236 | The extent is that of the mode's rectangle turned by as many quarters as the rotation says. |
| `Displays.InventoryMeans` | scripts/computer-feasibility/main_scratch_randr.py:257-277 | Two snapshots share their inventory exactly if they differ in nothing but which CRTC shows what. |
| `RandR.ValidOutputs` | scripts/computer-feasibility/main_scratch_randr.py:240-252 | The set of outputs taken so far only ever matters for repetitions within one CRTC. |
| `RandR.Counting` | scripts/computer-feasibility/main_scratch_randr.py:186-193 | As many identities as rows means that none repeats. |
| `Displays.Display.SetCrtc` | scripts/computer-feasibility/main_scratch_randr.py:320-333 | The protocol's conditions on configuring a CRTC, which keep the display legal (RandR 1.5, section 7.1). |
| `Displays.Display.SetScreen` | scripts/computer-feasibility/main_scratch_randr.py:335-342 | The protocol's conditions on resizing the framebuffer. |
| `Displays.RepresentableIsLegal` | scripts/computer-feasibility/main_scratch_randr.py:177-254 | A representable topology is legal: CRTCs inside the framebuffer, each output on one CRTC at most. |
| `Displays.OutputsDetermined` | scripts/computer-feasibility/main_scratch_randr.py:364-365 | Which output is where follows from the CRTCs alone. |
| `Restoration.Restore` | scripts/computer-feasibility/main_scratch_randr.py:290-366 | Refused exactly under the listed conditions, and then nothing is touched; restored means that the display shows the snapshot; it fails only if the server fails a request. |
| `Restoration.Rewrite` | scripts/computer-feasibility/main_scratch_randr.py:344-361 | Disable, grow, set, shrink: every request meets the protocol's conditions, so every state between two of them is legal, and the last one is the snapshot. |
| `Restoration.Settable` | scripts/computer-feasibility/main_scratch_randr.py:354-356 | A wanted CRTC may be set on any framebuffer that is large enough, while only wanted CRTCs are on. |
| `Restoration.Free` | scripts/computer-feasibility/main_scratch_randr.py:354-356 | The outputs a wanted CRTC asks for are shown by no other. |
| `Restoration.DisableChanged` | scripts/computer-feasibility/main_scratch_randr.py:345-347 | After the first loop every changed CRTC is off and the others are untouched. |
| `Restoration.EnableChanged` | scripts/computer-feasibility/main_scratch_randr.py:354-356 | After the second loop every CRTC is as wanted. |
| `Subsurfaces.Inventory` | assets/hyprland-input/scope-plugin.cpp:809-849 | The walk over a growing list ends on every graph. It succeeds exactly on proper ones: what is reachable from the window and its captured popups is sound, at most 32 deep, at most 256 nodes, and reached in one way only. What it returns is exactly that forest, no surface twice. |
| `Subsurfaces.RootsMean` | assets/hyprland-input/scope-plugin.cpp:811-822 | The walk starts at the window, and after it at every candidate that is a captured popup and current. |
| `Subsurfaces.Room` | assets/hyprland-input/scope-plugin.cpp:829-831 | In a proper graph the walk never meets its depth or size bound. |
| `Subsurfaces.NewLeaf` | assets/hyprland-input/scope-plugin.cpp:830-836 | A leaf knows its subsurface and its parent, so in a proper graph no child leads to a surface already queued. |
| `Subsurfaces.ForestIsProper` | assets/hyprland-input/scope-plugin.cpp:823-847 | Conversely whatever was captured completely is proper, and a surface lies as deep as every way to it is long. |
| `Subsurfaces.CycleIsImproper` | assets/hyprland-input/scope-plugin.cpp:824-832 | A graph with a cycle within reach is refused. |
| `Subsurfaces.ForestCaptures` | assets/hyprland-input/scope-plugin.cpp:823-847 | The returned nodes alone say it: with the roots they are all that is reachable, each once, each the edge it was captured from. |
| `Subsurfaces.ExactlyReachable` | assets/hyprland-input/scope-plugin.cpp:823-847 | A list closed under children in which each leaf follows its parent holds exactly what is reachable. |
| `Subsurfaces.Destination` | assets/hyprland-input/scope-plugin.cpp:850-875 | The walk up from the surface under the pointer accepts exactly the surfaces from which a way leads up over at most 32 subsurfaces, none twice, each alive, mapped, not withdrawn and unchanged since it was captured, to the window or a captured popup. |
| `Subsurfaces.ChangedIsRefused` | assets/hyprland-input/scope-plugin.cpp:864-870 | A captured leaf whose position, stacking, shape or parent is no longer that of its node is refused. |
| `Subsurfaces.LeafIs` | assets/hyprland-input/scope-plugin.cpp:830-843 | A child leads to the live surface that names it as its role and that it names as its own, under the parent it hangs under, with finite geometry; the node keeps all of it. |
| `Subsurfaces.OnlyForest` | assets/hyprland-input/scope-plugin.cpp:850-875 | In whatever scene it walks, only surfaces of the captured forest are accepted. |
| `Subsurfaces.AllOfForest` | assets/hyprland-input/scope-plugin.cpp:850-875 | While nothing changes, a surface of the forest is accepted exactly if it and all those above it, up to a root with a valid popup chain, are mapped and not withdrawn: the depth bounds of the two walks agree. |
| `Subsurfaces.StepUp` | assets/hyprland-input/scope-plugin.cpp:853-872 | One step of the walk: from a captured leaf to the parent it was captured under, exactly if the leaf is mapped and not withdrawn. |
| `Capture.Frame.Capture` | assets/hyprland-capture/odin-hyprland-capture.c:427-445 | Nothing is written unless the frame was offered, announced, copied, flagged and finished in exactly this order, once each, also if a write fails midway; what is written on success is taken apart byte by byte: the magic, width at 8, height at 12, row bytes at 16, total at 28, and every pixel at its place, the rows top down with flags 0 and bottom up with flags 1. If the system obeys, the capture succeeds exactly on event batches that complete the order. |
| `Capture.Frame.FrameBuffer` | assets/hyprland-capture/odin-hyprland-capture.c:236-248 | An offer is an error exactly if it is not the first event or does not hold the frame. |
| `Capture.Frame.FrameFlags` | assets/hyprland-capture/odin-hyprland-capture.c:249-254 | Flags are an error exactly if they come anywhere but once after the copy, or are not 0 or 1. |
| `Capture.Frame.FrameReady` | assets/hyprland-capture/odin-hyprland-capture.c:255-263 | Ready is an error exactly if it comes anywhere but once after the flags. |
| `Capture.Frame.FrameBufferDone` | assets/hyprland-capture/odin-hyprland-capture.c:279-284 | The announcement is an error exactly if it comes anywhere but once after the offer. |
| `Capture.Frame.Dispatch` | assets/hyprland-capture/odin-hyprland-capture.c:236-284 | A batch of any number of events ends in an error exactly if one of them has no place in the order. |
| `Capture.Frame.AwaitBuffer` | assets/hyprland-capture/odin-hyprland-capture.c:429-430 | The wait ends in an error exactly if the events until the announcement are out of place or do not come. |
| `Capture.Frame.AwaitReady` | assets/hyprland-capture/odin-hyprland-capture.c:431-434 | The same for the events from the copy to the end. |
| `Capture.Frame.WriteAll` | assets/hyprland-capture/odin-hyprland-capture.c:331-347 | However the pipe takes it, what is written is a prefix of the buffer, and all of it on success; it succeeds whenever the pipe keeps taking some in time. |
| `Capture.Frame.Publish` | assets/hyprland-capture/odin-hyprland-capture.c:348-370 | The header with exact sizes, then the rows top down. |
| `Capture.Frame.PublishRow` | assets/hyprland-capture/odin-hyprland-capture.c:356-368 | One more row, and exactly that. |
| `Capture.Frame.PackRow` | assets/hyprland-capture/odin-hyprland-capture.c:357-367 | One row, pixel by pixel; every byte read lies inside the mapping and no 32-bit product wraps. |
| `Capture.PixelAt` | assets/hyprland-capture/odin-hyprland-capture.c:356-367 | Colour c of pixel (x, y) of the picture is byte y * stride + 4 x + c of the mapping with flags 0, and byte (height - 1 - y) * stride + 4 x + c with flags 1; the fourth byte is 255. |

## Left out

- Retries after EINTR and EAGAIN are part of the disk and pipe primitives; the pipe interrupts a writer only finitely often.
- File identity, ownership, permissions, link counts and the lock file (`identityIntact`, `privateFile`, `openDirectory`): the files are taken to be untouched by others. Failures of these checks are failures of the surrounding primitive.
- The plugin's replies and diagnostics other than the fields a cleanup relies on, the counting of rejected inputs by the plugin (what the guardian makes of the counter in an answer is kept, for any counter), protocol logging and focus inventory.
- Pointer motion, warp, axis and focus hooks: motion and scrolling hold nothing. A focus or topology change that revokes is the event `Lapse`; whether the bound scene still stands is an arbitrary answer at each check.
- `capture_resource_containment`, `owner_status` and `owner_reconnect_status`: read-only, apart from an inventory id that `arm` then compares. Destroying a retired owner's client is the event `DeviceDestroyed`.
- valid_popup_ancestry and the popup chain walk: which surfaces have a valid, captured popup chain is given to `Subsurfaces` as a set.
- Live evdev inspection, /proc, pidfds, peer credentials and SHA-256 are arbitrary answers.
- strtod is a map from words to finite reals, and the coordinates of a move stay real; the conversion to unsigned pixels when it is sent is not modelled.
- The guardian's line reader, its command dispatch, output discovery and receipts. Lines hold printable ASCII only, as the reader guarantees. xkb's modifier state after an event is arbitrary.
- Displays.Display.SetCrtc: clone compatibility of several outputs on one CRTC is the server's to judge and not among the conditions; the validation of the source does not look at it either.
- Restoration.Restore: monitors are not part of the display, because representable snapshots have only automatic ones, which the server derives.
- Capture.Frame.Capture: what the compositor leaves in the shared mapping is arbitrary, and is read only after the connection is shut.
- Cleanup.ReleaseAll: the connection is authenticated, so a reply that arrives is the plugin's; an answer whose counts exceed the parser's ranges counts as a lost one.
- KWin and GNOME scope providers, the Python service, and the lab scripts.
