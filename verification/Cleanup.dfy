// release_all() of guardian.c: guardian, plugin, and a connection between them that may lose
// any request or reply, or deliver a request late.
module Cleanup {
  import opened Options
  import opened Words
  import opened Owners
  import opened Planner
  import opened Scope
  import opened Guardians

  // What one cleanup put on the scope connection. A release that was not answered lost its
  // transport.
  datatype Asked = AskedRelease(tagged: bool, answered: bool) | AskedStatus

  class Link {
    const proc: Proc
    var fd: Option<nat>
    var ready: bool
    var armAttempted: bool
    var inputEverAttempted: bool
    var armRefused: bool          // the arm was answered, completely, with a refusal
    var armToken: nat             // the snapshot the last arm was asked for
    var statusKnown: bool         // the plugin offers release_status
    var rejected: nat
    var failed: bool
    var notRequired: bool
    var releaseSent: bool
    var acknowledged: bool

    // Records of the model, for the current cleanup: what was asked, and how the plugin's
    // execution of it ended.
    ghost var asked: seq<Asked>
    ghost var outcome: Option<Completion>

    constructor (proc: Proc, fd: Option<nat>)
      ensures this.proc == proc && this.fd == fd && !acknowledged && !notRequired && asked == [] && outcome == None
    {
      this.proc, this.fd := proc, fd;
      ready, armAttempted, inputEverAttempted, armRefused, statusKnown := false, false, false, false, false;
      rejected, failed, notRequired, releaseSent, acknowledged, armToken := 0, false, false, false, false, 0;
      asked, outcome := [], None;
    }

    // The registration was answered, and the display is set up.
    method Registered(status: bool, count: nat)
      modifies this`statusKnown, this`rejected, this`ready
      ensures ready && statusKnown == status && rejected == count
    {
      statusKnown, rejected, ready := status, count, true;
    }
  }

  // Anything may happen to the plugin meanwhile, except that nobody else uses a command id
  // that was just drawn from 192 random bits. obey: nothing does.
  method Meanwhile(plugin: State, command: string, obey: bool)
    requires plugin.Valid()
    modifies plugin
    ensures plugin.Valid() && plugin.now >= old(plugin.now) && (obey ==> unchanged(plugin))
    ensures command in plugin.completed <==> command in old(plugin.completed)
    ensures command in plugin.completed ==> plugin.completed[command] == old(plugin.completed)[command]
  {
    var actions: seq<Action> := *;
    if !obey && !Commands(actions, command) { var _ := plugin.Run(actions); }
  }

  // The state of a cleanup between its steps: the command is on the plugin's record exactly if
  // it was executed, with the outcome recorded here; it is pending only before that.
  ghost predicate Tracked(l: Link, plugin: State, tag: Option<Tag>, pending: bool)
    reads l, plugin
  {
    && (pending ==> l.outcome.None?)
    && (tag.Some? ==>
          && (tag.value.command in plugin.completed <==> l.outcome.Some?)
          && (l.outcome.Some? ==> plugin.completed[tag.value.command] == l.outcome.value))
    && (l.outcome.Some? && l.outcome.value.acknowledged ==> !l.outcome.value.leftOut)
  }

  lemma Untracked(l: Link, plugin: State, tag: Option<Tag>)
    requires tag.Some? ==> tag.value.command !in plugin.completed
    ensures l.outcome.None? ==> Tracked(l, plugin, tag, true)
  {}

  // The connection is this guardian's, and entitles it to the cleanup it asks for.
  ghost predicate Own(proc: Proc, fd: nat, plugin: State, tag: Option<Tag>)
    reads plugin
  {
    fd in plugin.peers && plugin.peers[fd].proc == proc && (tag.Some? ==> plugin.MayRelease(fd, tag.value))
  }

  // The plugin may release, and nothing but its environment stands in the way.
  ghost predicate Ready(plugin: State)
    reads plugin
  {
    plugin.Releasable() && !plugin.Undrainable()
  }

  // How the environment takes a cleanup. obey: the display, the connections and the plugin's
  // environment obey, and nothing else happens to the plugin. heard: the answer to the release
  // arrives. again: the descriptor the plugin gives to a second connection. count: the counter of
  // rejected inputs in the answer, if there is one.
  datatype Course = Course(obey: bool, heard: bool, again: nat, count: Option<nat>)

  // A fresh receipt says that this cleanup left nothing, and nothing has happened since.
  ghost predicate Receipted(proc: Proc, plugin: State, tag: Tag)
    reads plugin
  {
    && plugin.receipt.Some? && plugin.receipt.value.acknowledged
    && plugin.receipt.value.proc == proc && plugin.receipt.value.command == tag.command
    && 0 < plugin.receipt.value.completed <= plugin.now <= plugin.receipt.value.completed + 500_000_000
    && CommandID(tag.command) && proc.start == tag.start && proc !in plugin.exited
    && !plugin.armed && plugin.LedgersEmpty()
  }

  // A second connection can be made under this descriptor.
  ghost predicate Reachable(proc: Proc, plugin: State, again: nat)
    reads plugin
  {
    plugin.now > 0 && (again in plugin.peers ==> plugin.peers[again].proc == proc)
  }

  // The plugin executes the request, if the connection it came on is still this guardian's.
  method Execute(l: Link, plugin: State, fd: nat, tag: Option<Tag>, obey: bool) returns (reply: Option<Reply>)
    requires plugin.Valid() && Tracked(l, plugin, tag, true)
    modifies plugin, l`outcome
    ensures plugin.Valid() && Tracked(l, plugin, tag, false) && (l.outcome.None? ==> Tracked(l, plugin, tag, true))
    ensures reply.Some? && reply.value.ok ==> l.outcome == Some(Completion(true, false))
    ensures plugin.peers == old(plugin.peers) && plugin.now == old(plugin.now)
    ensures obey && tag.Some? && old(Own(l.proc, fd, plugin, tag) && Ready(plugin) && plugin.now > 0) ==>
      Receipted(l.proc, plugin, tag.value)
    ensures obey && old(Own(l.proc, fd, plugin, tag) && Ready(plugin)) ==>
      reply.Some? && reply.value.ok && Confirms(reply.value)
  {
    hide State.Valid, State.Kept, State.LeaseKept, State.Releasable, State.Undrainable;
    reply := None;
    if fd !in plugin.peers || plugin.peers[fd].proc != l.proc {
      return;
    }
    var view: bool := *;
    if tag.Some? {
      var r := plugin.ReleaseAllTagged(fd, tag.value, view, obey);
      reply := Some(r);
      l.outcome := if tag.value.command in plugin.completed then Some(plugin.completed[tag.value.command]) else None;
      Completions(plugin);
    } else {
      var r := plugin.ReleaseAll(view, obey);
      reply := Some(r);
      l.outcome := Some(Completion(r.ok, !(plugin.world.out <= plugin.orphans)));
    }
  }

  lemma Completions(plugin: State)
    requires plugin.Valid()
    ensures forall c :: c in plugin.completed && plugin.completed[c].acknowledged ==> !plugin.completed[c].leftOut
  {}

  // A request that was sent and not answered may still be executed, once.
  method Later(l: Link, plugin: State, fd: nat, tag: Option<Tag>, pending: bool, obey: bool) returns (still: bool)
    requires plugin.Valid() && Tracked(l, plugin, tag, pending)
    modifies plugin, l`outcome
    ensures plugin.Valid() && Tracked(l, plugin, tag, still)
    ensures obey && !pending ==> unchanged(plugin) && !still
    ensures !pending ==> l.outcome == old(l.outcome)
  {
    hide State.Valid, State.Kept, State.LeaseKept;
    still := pending;
    Wait(l, plugin, tag, pending, obey);
    var arrives: bool := *;
    if pending && arrives {
      var _ := Execute(l, plugin, fd, tag, false);
      still := false;
    }
    Wait(l, plugin, tag, still, obey);
  }

  method Wait(l: Link, plugin: State, tag: Option<Tag>, pending: bool, obey: bool)
    requires plugin.Valid() && Tracked(l, plugin, tag, pending)
    modifies plugin
    ensures plugin.Valid() && Tracked(l, plugin, tag, pending) && (obey ==> unchanged(plugin))
  {
    hide State.Valid, State.Kept, State.LeaseKept;
    if tag.Some? {
      Meanwhile(plugin, tag.value.command, obey);
    } else {
      Meanwhile(plugin, "", obey);
    }
  }

  // scope_exchange() of the one release_all: no reply is a lost transport.
  method AskRelease(l: Link, plugin: State, tag: Option<Tag>, obey: bool, heard: bool)
    returns (reply: Option<Reply>, pending: bool)
    requires plugin.Valid() && Tracked(l, plugin, tag, true) && l.asked == []
    modifies plugin, l`outcome, l`fd, l`asked
    ensures plugin.Valid() && Tracked(l, plugin, tag, pending)
    ensures l.asked == if old(l.fd).Some? then [AskedRelease(tag.Some?, reply.Some?)] else []
    ensures reply.Some? && reply.value.ok ==> l.outcome == Some(Completion(true, false))
    ensures reply.None? <==> l.fd.None?
    ensures obey && old(l.fd.Some? && Own(l.proc, l.fd.value, plugin, tag) && Ready(plugin)) ==>
      if heard then reply.Some? && reply.value.ok && Confirms(reply.value) else reply.None? && !pending
    ensures obey && tag.Some? && old(l.fd.Some? && Own(l.proc, l.fd.value, plugin, tag) && Ready(plugin)
      && plugin.now > 0) ==>
      Receipted(l.proc, plugin, tag.value)
    ensures obey ==> plugin.peers == old(plugin.peers) && plugin.now == old(plugin.now)
  {
    hide State.Valid, State.Kept, State.LeaseKept, Own, Ready, Receipted;
    reply, pending := None, false;
    if l.fd.None? {
      return;
    }
    var fd := l.fd.value;
    Wait(l, plugin, tag, true, obey);
    var arrives: bool :| obey ==> arrives;
    if arrives {
      reply := Execute(l, plugin, fd, tag, obey);
      Wait(l, plugin, tag, false, obey);
      var returned: bool :| obey ==> returned == heard;       // in time, complete, and well-formed
      if !returned { reply := None; }
    } else {
      pending := true;
    }
    l.asked := [AskedRelease(tag.Some?, reply.Some?)];
    if reply.None? { l.fd := None; }
  }

  // connect_scope_peer() and the read-only lookup, while the lost request may still arrive. If it
  // was executed, and everything obeys, the lookup says so.
  method AskStatus(l: Link, plugin: State, tag: Tag, lost: nat, pending: bool, again: nat, obey: bool)
    returns (reply: Option<Reply>)
    requires plugin.Valid() && Tracked(l, plugin, Some(tag), pending)
    modifies plugin, l`outcome, l`fd, l`asked
    ensures plugin.Valid() && Tracked(l, plugin, Some(tag), false)
    ensures l.asked == old(l.asked) || l.asked == old(l.asked) + [AskedStatus]
    ensures reply.Some? && reply.value.ok && reply.value.acknowledged ==> l.outcome == Some(Completion(true, false))
    ensures obey && !pending && old(Receipted(l.proc, plugin, tag) && Reachable(l.proc, plugin, again)) ==>
      reply.Some? && reply.value.ok && Confirms(reply.value)
  {
    hide State.Valid, State.Kept, State.LeaseKept;
    reply := None;
    var still := Later(l, plugin, lost, Some(tag), pending, obey);
    var connects: bool :| obey ==> connects;
    if !connects {
      return;
    }
    var uid: nat :| true;
    plugin.Connect(again, Peer(l.proc, uid));
    l.fd, l.asked := Some(again), l.asked + [AskedStatus];
    still := Later(l, plugin, lost, Some(tag), still, obey);
    if again in plugin.peers && plugin.peers[again].proc == l.proc {
      reply := Lookup(plugin, again, tag);
    }
    still := Later(l, plugin, lost, Some(tag), still, obey);
    var returned: bool :| obey ==> returned;
    if !returned { reply := None; }
    if reply.None? { l.fd := None; }
  }

  // release_status, as the plugin answers it.
  method Lookup(plugin: State, fd: nat, tag: Tag) returns (reply: Option<Reply>)
    requires plugin.Valid() && fd in plugin.peers
    ensures reply.Some?
    ensures reply.value.ok && reply.value.acknowledged ==>
      tag.command in plugin.completed && plugin.completed[tag.command].acknowledged
    ensures Receipted(plugin.peers[fd].proc, plugin, tag) ==> reply.value.ok && Confirms(reply.value)
  {
    hide State.Valid;
    var r := plugin.ReleaseStatus(fd, tag);
    reply := Some(r);
  }

  // The release was answered, but the evidence counts only if it says that nothing is left.
  predicate Confirms(r: Reply) {
    r.acknowledged && !r.armed && r.keys == 0 && r.buttons == 0
  }

  // What a cleanup asks, on the connection it found: no release is repeated, and no status is
  // asked but for a tagged release whose transport was lost, here or before it could be sent.
  predicate AtMostOnce(asked: seq<Asked>, tagged: bool, connected: bool) {
    if connected then
      || (exists answered :: asked == [AskedRelease(tagged, answered)])
      || (tagged && asked == [AskedRelease(true, false), AskedStatus])
    else asked == [] || (tagged && asked == [AskedStatus])
  }

  // Everything is in place for a positive answer: to the release, or, if that answer is lost, to the
  // lookup after it.
  ghost predicate WillAnswer(l: Link, plugin: State, tag: Option<Tag>, course: Course)
    reads l`fd, plugin
  {
    && course.obey && l.fd.Some? && Own(l.proc, l.fd.value, plugin, tag) && Ready(plugin)
    && (course.heard || (tag.Some? && Reachable(l.proc, plugin, course.again)))
  }

  // The plugin's half: the release, and after a lost tagged one the status.
  method Ask(l: Link, plugin: State, tag: Option<Tag>, course: Course) returns (reply: Option<Reply>)
    requires plugin.Valid() && (tag.Some? ==> tag.value.command !in plugin.completed)
    modifies plugin, l`outcome, l`fd, l`asked
    ensures plugin.Valid() && Tracked(l, plugin, tag, false) && AtMostOnce(l.asked, tag.Some?, old(l.fd).Some?)
    ensures reply.Some? && reply.value.ok && Confirms(reply.value) ==> l.outcome == Some(Completion(true, false))
    ensures old(WillAnswer(l, plugin, tag, course)) ==>
      reply.Some? && reply.value.ok && Confirms(reply.value)
  {
    hide State.Valid, State.Kept, State.LeaseKept, Tracked, Own, Ready, Receipted;
    l.asked, l.outcome := [], None;
    Untracked(l, plugin, tag);
    var lost := if l.fd.Some? then l.fd.value else 0;
    var pending;
    reply, pending := AskRelease(l, plugin, tag, course.obey, course.heard);
    if reply.None? && tag.Some? {
      reply := AskStatus(l, plugin, tag.value, lost, pending, course.again, course.obey);
    } else {
      Settled(l, plugin, tag, pending);
    }
  }

  lemma Settled(l: Link, plugin: State, tag: Option<Tag>, pending: bool)
    requires Tracked(l, plugin, tag, pending)
    ensures Tracked(l, plugin, tag, false)
  {}

  // The plugin executed this cleanup, under its command id if it is tagged, with nothing left.
  ghost predicate Confirmed(l: Link, plugin: State, tag: Option<Tag>)
    reads l`outcome, plugin`completed
  {
    && l.outcome == Some(Completion(true, false))
    && (tag.Some? ==>
          tag.value.command in plugin.completed && plugin.completed[tag.value.command] == Completion(true, false))
  }

  // No release authority was acquired.
  predicate Needless(l: Link)
    reads l
  {
    l.ready && !l.armAttempted && !l.inputEverAttempted
  }

  // Everything is in place for an acknowledgement.
  ghost predicate WillConfirm(l: Link, plugin: State, tag: Option<Tag>, course: Course)
    reads l, plugin
  {
    !Needless(l) && !l.armRefused && WillAnswer(l, plugin, tag, course)
  }

  // release_all(). The command id is new. A cleanup asks for one release at most, and for one
  // status at most, and only after a tagged release whose transport was lost. If it reports an
  // acknowledgement, the plugin executed this very cleanup, under its command id if it is
  // tagged, with every ledger empty and nothing admitted by this plugin left unreleased; and
  // everything the guardian itself pressed is up again. Conversely the cleanup of a ready plugin,
  // asked for on the guardian's own connection, is acknowledged if everything obeys, and even if
  // the answer to a tagged release is lost.
  method ReleaseAll(l: Link, g: Guardian, plugin: State, tag: Option<Tag>, course: Course) returns (ok: bool)
    requires plugin.Valid() && g.ActionOk() && (g.failed || !g.action || g.index == g.table.planned)
    requires tag.Some? ==> l.statusKnown && tag.value.command !in plugin.completed
    modifies l`asked, l`outcome, l`acknowledged, l`notRequired, l`releaseSent, l`fd, l`failed, plugin, g`sent,
             g`modifiers, g.keys, g.buttons
    ensures plugin.Valid() && g.ActionOk()
    ensures ok == (l.acknowledged || l.notRequired)
    ensures l.acknowledged ==> Confirmed(l, plugin, tag) && g.Ledger() == {}
    ensures l.notRequired == old(l.ready && !l.armAttempted && !l.inputEverAttempted)
    ensures if l.notRequired || old(l.armRefused) then l.asked == [] && !l.acknowledged
            else AtMostOnce(l.asked, tag.Some?, old(l.fd).Some?)
    ensures (l.notRequired || !old(g.failed) ==> g.sent == old(g.sent)) && old(g.sent) <= g.sent
    ensures (l.acknowledged ==> course.count.Some?) && (old(l.failed) ==> l.failed)
    ensures course.count == Some(l.rejected) ==> l.failed == old(l.failed)
    ensures old(WillConfirm(l, plugin, tag, course)) ==>
      && l.acknowledged == course.count.Some?
      && (course.count != Some(l.rejected) ==> l.failed)
  {
    hide State.Valid, Guardian.ActionOk, Guardian.Ledger, Guardian.LedgerOk, Guardian.InTime, AtMostOnce, Own, Ready,
      Reachable;
    l.asked, l.outcome, l.acknowledged, l.notRequired := [], None, false, false;
    if Needless(l) {
      l.notRequired, l.releaseSent := true, false;
      return true;
    }
    var synced := ReleaseLocally(g, course.obey);
    l.releaseSent := *;
    if l.armRefused {
      return false;
    }
    AskAndConclude(l, plugin, tag, synced, course);
    ok := l.acknowledged;
  }

  // The guardian's half: an up for everything it holds. synced: the display has seen them.
  method ReleaseLocally(g: Guardian, obey: bool) returns (synced: bool)
    requires g.ActionOk() && (g.failed || !g.action || g.index == g.table.planned)
    modifies g`sent, g`modifiers, g.keys, g.buttons
    ensures g.ActionOk() && (synced ==> g.Ledger() == {}) && (obey ==> synced)
    ensures old(g.sent) <= g.sent && (!old(g.failed) ==> g.sent == old(g.sent))
  {
    hide Guardian.ActionOk, Guardian.Ledger;
    var disconnected: bool :| obey ==> !disconnected;
    var queued := g.ReleaseOwned(disconnected);
    synced :| obey ==> synced;
    synced := queued && synced;
  }

  // The plugin's half of a cleanup, and what the guardian makes of it. synced: everything the
  // guardian pressed is up, and the display has seen it.
  method AskAndConclude(l: Link, plugin: State, tag: Option<Tag>, synced: bool, course: Course)
    requires plugin.Valid() && (tag.Some? ==> tag.value.command !in plugin.completed)
    modifies plugin, l`outcome, l`fd, l`asked, l`acknowledged, l`failed
    ensures plugin.Valid() && AtMostOnce(l.asked, tag.Some?, old(l.fd).Some?)
    ensures l.acknowledged ==> synced && Confirmed(l, plugin, tag)
    ensures (l.acknowledged ==> course.count.Some?) && (old(l.failed) ==> l.failed)
    ensures course.count == Some(l.rejected) ==> l.failed == old(l.failed)
    ensures old(WillAnswer(l, plugin, tag, course)) ==>
      && l.acknowledged == (synced && course.count.Some?)
      && (course.count != Some(l.rejected) ==> l.failed)
  {
    hide State.Valid, AtMostOnce, Own, Ready, Reachable;
    var reply := Ask(l, plugin, tag, course);
    Conclude(l, synced, reply, course.count);
  }

  // What the guardian makes of the reply: acknowledged exactly if everything is up and seen, and
  // the answer is positive, says that nothing is left and counts the rejected inputs. Without the
  // counter, or with another count than before, the guardian has failed.
  method Conclude(l: Link, synced: bool, reply: Option<Reply>, count: Option<nat>)
    modifies l`acknowledged, l`failed
    ensures l.acknowledged <==>
      && synced && count.Some? && reply.Some? && reply.value.ok && reply.value.acknowledged
      && !reply.value.armed && reply.value.keys == 0 && reply.value.buttons == 0
    ensures l.failed <==> old(l.failed) || (reply.Some? && reply.value.ok && count != Some(l.rejected))
  {
    var ack := reply.Some? && reply.value.ok;
    l.acknowledged := synced && ack && Confirms(reply.value);
    if ack && count.None? {
      l.acknowledged, l.failed := false, true;
    } else if ack && count.value != l.rejected {
      l.failed := true;
    }
  }

  // Whoever has a lease has asked for it.
  predicate Bound(l: Link, g: Guardian)
    reads l`armAttempted, g`begun
  {
    g.begun ==> l.armAttempted
  }

  // A line of an action: it is performed if it is accepted; otherwise everything is released, and
  // the lease is given up if that was acknowledged.
  method Submit(l: Link, g: Guardian, plugin: State, line: string, tag: Option<Tag>, course: Course)
    returns (ok: bool)
    requires plugin.Valid() && g.ActionOk() && g.begun && !g.action && !g.failed && Bound(l, g)
    requires tag.Some? ==> l.statusKnown && tag.value.command !in plugin.completed
    modifies l, plugin, g, g.keys, g.buttons, g.table, g.table.events
    ensures plugin.Valid() && g.ActionOk() && Bound(l, g) && ok == g.action
    ensures ok <==> old(Accepted(g.table.screen, line, g.now, g.lease))
    ensures !ok ==> g.Ledger() == {} && g.begun == !l.acknowledged == g.failed
    ensures !ok && l.acknowledged ==> Confirmed(l, plugin, tag)
    ensures !ok && old(WillConfirm(l, plugin, tag, course)) ==> l.acknowledged == course.count.Some?
  {
    hide State.Valid, Guardian.ActionOk, Guardian.Ledger, AtMostOnce, WillAnswer, Accepted, Confirmed, WillConfirm;
    ghost var meaning;
    ok, meaning := g.Perform(line);
    if !ok {
      var released := ReleaseAll(l, g, plugin, tag, course);
      g.Reject(released);
    }
  }

  // A turn of step(). When the plan is used up everything is released, and the action is done only
  // if that was acknowledged and nothing else has failed; otherwise the guardian has failed.
  method Turn(l: Link, g: Guardian, plugin: State, tag: Option<Tag>, course: Course)
    returns (finished: bool)
    requires plugin.Valid() && g.ActionOk() && g.action && g.begun && !g.failed && Bound(l, g)
    requires tag.Some? ==> l.statusKnown && tag.value.command !in plugin.completed
    modifies l, plugin, g, g.keys, g.buttons
    ensures plugin.Valid() && g.ActionOk() && Bound(l, g) && old(g.sent) <= g.sent
    ensures l.inputEverAttempted == (old(l.inputEverAttempted) || g.sent != old(g.sent))
    ensures !g.action ==> finished && !g.failed && !g.begun && !l.failed && l.acknowledged && Confirmed(l, plugin, tag)
    ensures finished && g.action ==> g.failed
    ensures finished && old(!l.failed && WillConfirm(l, plugin, tag, course)) ==>
      (!g.action <==> course.count == Some(l.rejected))
  {
    hide State.Valid, Guardian.ActionOk, Guardian.Ledger, AtMostOnce, Own, Ready, Reachable;
    var sent := |g.sent|;
    var due;
    finished, due := g.Step(course.obey);
    if |g.sent| > sent { l.inputEverAttempted := true; }
    if finished {
      var ok := ReleaseAll(l, g, plugin, tag, course);
      g.Complete(ok && !l.failed);
    }
  }
}
