// What the plugin's ledgers of owners and the aggregate button list keep from one moment to any
// later one.
module History {
  import opened Options
  import opened Owners
  import opened Seat
  import opened Words

  // ---- Owners ----

  // What no operation on an owner ever takes back.
  ghost predicate Advances(o: Owner, o': Owner) {
    && o'.guardian == o.guardian && o'.recoveryUid == o.recoveryUid && o'.capability == o.capability
    && (o.Lost() ==> o'.Lost()) && (o.inputFenced ==> o'.inputFenced)
    && (o.revoked ==> o'.revoked) && (o.retired ==> o'.retired) && (o.reconciled ==> o'.reconciled)
    && (forall c :: c in o.adoptions ==> c in o'.adoptions && o'.adoptions[c] == o.adoptions[c])
    && (o.recovery.None? ==> o'.recovery.None?)
  }

  // One ledger per guardian, and no reconciled owner is admitted again.
  ghost predicate Sane(owners: map<nat, Owner>) {
    && (forall i, j :: i in owners && j in owners && owners[i].guardian == owners[j].guardian ==> i == j)
    && (forall i :: i in owners && owners[i].reconciled ==> owners[i].revoked)
  }

  // Every ledger's adoptions form a simple chain.
  ghost predicate AllChained(owners: map<nat, Owner>, chains: map<nat, Chain>, exited: set<Proc>) {
    forall id :: id in owners ==> id in chains && Chained(owners[id], chains[id], exited)
  }

  ghost predicate AllAdvance(owners: map<nat, Owner>, owners': map<nat, Owner>) {
    forall id :: id in owners ==> id in owners' && Advances(owners[id], owners'[id])
  }

  // Replacing one owner by a later account of itself.
  lemma OwnerReplaced(owners: map<nat, Owner>, chains: map<nat, Chain>, exited: set<Proc>, id: nat, o: Owner)
    requires Sane(owners) && AllChained(owners, chains, exited) && id in owners
    requires Advances(owners[id], o) && o.recovery == owners[id].recovery && o.adoptions == owners[id].adoptions
    requires o.reconciled ==> owners[id].reconciled || o.revoked
    ensures Sane(owners[id := o]) && AllChained(owners[id := o], chains, exited) && AllAdvance(owners, owners[id := o])
  {
    ChainKept(owners[id], o, chains[id], exited, exited);
  }

  // Entering a new owner under a fresh id.
  lemma OwnerEntered(owners: map<nat, Owner>, chains: map<nat, Chain>, exited: set<Proc>, id: nat, o: Owner, c: Chain)
    requires Sane(owners) && AllChained(owners, chains, exited) && id !in owners
    requires Chained(o, c, exited) && !o.reconciled && forall i :: i in owners ==> owners[i].guardian != o.guardian
    ensures Sane(owners[id := o]) && AllChained(owners[id := o], chains[id := c], exited)
      && AllAdvance(owners, owners[id := o])
  {}

  // An adoption: the chain grows by one link.
  lemma OwnerAdopted(owners: map<nat, Owner>, chains: map<nat, Chain>, exited: set<Proc>, id: nat,
                     claim: Claim, peer: Proc, uid: nat, available: bool)
    requires Sane(owners) && AllChained(owners, chains, exited) && id in owners && peer !in exited
    requires Reconnect(owners[id], claim, peer, uid, exited, available).Some?
    ensures id in chains
    ensures var o := Reconnect(owners[id], claim, peer, uid, exited, available).value;
            var c := Grown(chains[id], claim.command, peer);
      && o == owners[id].(adoptions := o.adoptions, recovery := Some(peer), inputFenced := true)
      && Sane(owners[id := o]) && AllChained(owners[id := o], chains[id := c], exited)
        && AllAdvance(owners, owners[id := o])
  {
    hide ChainOf;
    ReconnectExtendsChain(owners[id], chains[id], claim, peer, uid, exited, available);
  }

  lemma MoreExited(owners: map<nat, Owner>, chains: map<nat, Chain>, exited: set<Proc>, exited': set<Proc>)
    requires AllChained(owners, chains, exited) && exited <= exited'
    ensures AllChained(owners, chains, exited')
  {
    forall id | id in owners ensures id in chains && Chained(owners[id], chains[id], exited') {
      ChainKept(owners[id], owners[id], chains[id], exited, exited');
    }
  }

  lemma NothingLost(owners: map<nat, Owner>)
    ensures AllAdvance(owners, owners)
  {}

  lemma NoRecovery(o: Owner, c: Chain, exited: set<Proc>)
    requires o.recovery.None? && o.capability.None? && o.adoptions == map[]
    ensures Chained(o, c, exited)
  {}

  lemma AccountAdvances(o: Owner, empty: bool, ack: bool, unknown: bool)
    requires o.unknown ==> unknown
    ensures Advances(o, o.(empty := empty, ack := ack, unknown := unknown))
  {}

  // No chain is ever replaced: it only gets longer.
  ghost predicate Lengthened(owners: map<nat, Owner>, chains: map<nat, Chain>, chains': map<nat, Chain>) {
    forall id :: id in owners && id in chains ==> id in chains' && Longer(chains[id], chains'[id])
  }

  predicate Longer(c: Chain, c': Chain) { c.procs <= c'.procs && c.commands <= c'.commands }

  // A ledger that is new has no recovery process, or its chain starts at the founder named for it.
  ghost predicate Founded(owners: map<nat, Owner>, owners': map<nat, Owner>, chains': map<nat, Chain>,
                          founders: iset<(nat, Proc)>) {
    forall id :: id in owners' && id !in owners ==>
      owners'[id].recovery.None? || (id in chains' && chains'[id].procs != [] && (id, chains'[id].procs[0]) in founders)
  }

  // ---- Holds ----

  // Who dispatched an up: the owned pointer, another device, or a recovery.
  datatype Via = OwnedUp(pointer: nat) | ForeignUp(device: nat) | RecoveryUp

  // A dispatched up, and the holds it took out of the aggregate list.
  datatype Erasure = Erasure(via: Via, holds: set<Hold>)

  function Taken(via: Via, held: seq<Hold>, code: uint32): Erasure {
    Erasure(via, set h <- held | h.code == code)
  }

  // The owned pointer's ups take the owned pointer's holds.
  predicate OwnOnly(e: Erasure) { e.via.OwnedUp? ==> forall h <- e.holds :: h.device == e.via.pointer }

  predicate Recorded(h: Hold, es: seq<Erasure>) { exists e <- es :: h in e.holds }

  // Every hold that is gone was taken by an up on record, and only a recovery takes any by itself.
  ghost predicate Accounted(held: seq<Hold>, es: seq<Erasure>, held': seq<Hold>, es': seq<Erasure>, recovery: bool) {
    && es <= es' && (forall h <- held :: h in held' || Recorded(h, es'[|es|..]))
    && (recovery || forall e <- es'[|es|..] :: !e.via.RecoveryUp?)
  }

  lemma NothingTaken(held: seq<Hold>, es: seq<Erasure>, held': seq<Hold>)
    requires held <= held'
    ensures Accounted(held, es, held', es, false) && Accounted(held, es, held', es, true)
  {
    assert forall h <- held :: h in held';
  }

  lemma UpTakes(held: seq<Hold>, es: seq<Erasure>, code: uint32, via: Via)
    ensures forall h :: h in Erased(held, code) <==> h in held && h.code != code
    ensures Accounted(held, es, Erased(held, code), es + [Taken(via, held, code)], via.RecoveryUp?)
  {
    forall h ensures h in Erased(held, code) <==> h in held && h.code != code {
      ErasedKeepsOthers(held, code, h);
    }
    var more := (es + [Taken(via, held, code)])[|es|..];
    assert more == [Taken(via, held, code)];
    forall h <- held ensures h in Erased(held, code) || Recorded(h, more) {
      if h.code == code { assert more[0] in more; }
    }
  }

  lemma AccountedOn(held: seq<Hold>, es: seq<Erasure>, held': seq<Hold>, es': seq<Erasure>,
                    held'': seq<Hold>, es'': seq<Erasure>, recovery: bool)
    requires Accounted(held, es, held', es', recovery) && Accounted(held', es', held'', es'', recovery)
    ensures Accounted(held, es, held'', es'', recovery)
  {
    var first, second, all := es'[|es|..], es''[|es'|..], es''[|es|..];
    assert all == first + second;
    forall h <- held ensures h in held'' || Recorded(h, all) {
      if h !in held'' {
        if Recorded(h, first) {
          var e :| e in first && h in e.holds;
          assert e in all;
        } else {
          var e :| e in second && h in e.holds;
          assert e in all;
        }
      }
    }
  }

  // ---- Both ----

  datatype Past = Past(owners: map<nat, Owner>, chains: map<nat, Chain>, held: seq<Hold>, erasures: seq<Erasure>)

  // What any later moment keeps of an earlier one. recovery: there may have been one between
  // them. founders: who may have opened a ledger for a guardian between them.
  ghost predicate Follows(p: Past, q: Past, recovery: bool, founders: iset<(nat, Proc)>) {
    && AllAdvance(p.owners, q.owners) && Lengthened(p.owners, p.chains, q.chains)
    && Founded(p.owners, q.owners, q.chains, founders)
    && Accounted(p.held, p.erasures, q.held, q.erasures, recovery)
  }

  lemma FollowsItself(p: Past)
    ensures Follows(p, p, false, iset{})
  {
    NothingTaken(p.held, p.erasures, p.held);
  }

  lemma FollowsOn(p: Past, q: Past, r: Past, recovery: bool, founders: iset<(nat, Proc)>)
    requires Follows(p, q, recovery, founders) && Follows(q, r, recovery, founders)
    ensures Follows(p, r, recovery, founders)
  {
    hide Accounted, Advances;
    AccountedOn(p.held, p.erasures, q.held, q.erasures, r.held, r.erasures, recovery);
    AdvanceOn(p.owners, q.owners, r.owners);
    LengthenedOn(p, q, r);
    FoundedOn(p, q, r, founders);
  }

  // Less is promised of a time in which more may have happened.
  lemma FollowsLoosely(p: Past, q: Past, recovery: bool, recovery': bool, founders: iset<(nat, Proc)>,
                       founders': iset<(nat, Proc)>)
    requires Follows(p, q, recovery, founders) && (recovery ==> recovery') && founders <= founders'
    ensures Follows(p, q, recovery', founders')
  {}

  lemma AdvanceOn(m: map<nat, Owner>, m': map<nat, Owner>, m'': map<nat, Owner>)
    requires AllAdvance(m, m') && AllAdvance(m', m'')
    ensures AllAdvance(m, m'')
  {}

  lemma LengthenedOn(p: Past, q: Past, r: Past)
    requires AllAdvance(p.owners, q.owners) && Lengthened(p.owners, p.chains, q.chains)
      && Lengthened(q.owners, q.chains, r.chains)
    ensures Lengthened(p.owners, p.chains, r.chains)
  {
    hide Advances;
  }

  lemma FoundedOn(p: Past, q: Past, r: Past, founders: iset<(nat, Proc)>)
    requires AllAdvance(q.owners, r.owners) && Lengthened(q.owners, q.chains, r.chains)
    requires Founded(p.owners, q.owners, q.chains, founders) && Founded(q.owners, r.owners, r.chains, founders)
    ensures Founded(p.owners, r.owners, r.chains, founders)
  {
    forall id | id in r.owners && id !in p.owners && r.owners[id].recovery.Some?
      ensures id in r.chains && r.chains[id].procs != [] && (id, r.chains[id].procs[0]) in founders
    {
      if id in q.owners {
        assert Advances(q.owners[id], r.owners[id]);
        assert Longer(q.chains[id], r.chains[id]);
      }
    }
  }

  // Where nobody may open a ledger for a guardian, a new one has no recovery process.
  lemma NoneOpened(p: Past, q: Past, recovery: bool)
    requires Follows(p, q, recovery, iset{})
    ensures forall id :: id in q.owners && id !in p.owners ==> q.owners[id].recovery.None?
  {}

  // Only the owners changed, or only the holds.
  lemma OwnersFollow(p: Past, owners: map<nat, Owner>)
    requires AllAdvance(p.owners, owners) && owners.Keys == p.owners.Keys
    ensures Follows(p, p.(owners := owners), false, iset{})
  {
    NothingTaken(p.held, p.erasures, p.held);
  }

  lemma HoldsFollow(p: Past, held: seq<Hold>, es: seq<Erasure>, recovery: bool)
    requires Accounted(p.held, p.erasures, held, es, recovery)
    ensures Follows(p, p.(held := held, erasures := es), recovery, iset{})
  {}

  lemma BothFollow(p: Past, owners: map<nat, Owner>, held: seq<Hold>, es: seq<Erasure>)
    requires AllAdvance(p.owners, owners) && owners.Keys == p.owners.Keys
    requires Accounted(p.held, p.erasures, held, es, false)
    ensures Follows(p, p.(owners := owners, held := held, erasures := es), false, iset{})
  {}

  lemma GrownIsLonger(owners: map<nat, Owner>, chains: map<nat, Chain>, id: nat, o: Owner, command: string, next: Proc)
    requires id in owners && id in chains
    ensures Lengthened(owners, chains, chains[id := Grown(chains[id], command, next)])
    ensures Founded(owners, owners[id := o], chains[id := Grown(chains[id], command, next)], iset{})
  {}

  // A ledger was opened, or its chain got longer.
  lemma ChainsFollow(p: Past, owners: map<nat, Owner>, chains: map<nat, Chain>, founders: iset<(nat, Proc)>)
    requires AllAdvance(p.owners, owners) && Lengthened(p.owners, p.chains, chains)
      && Founded(p.owners, owners, chains, founders)
    ensures Follows(p, p.(owners := owners, chains := chains), false, founders)
  {
    NothingTaken(p.held, p.erasures, p.held);
  }
}
