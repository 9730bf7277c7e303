// scope_bind() of guardian.c: asking the plugin for a lease, and for more of it, over a connection
// that may lose the request or its answer.
module Binding {
  import opened Options
  import opened Words
  import opened Scope
  import opened Guardians
  import opened Cleanup
  import Deadline

  // What the plugin finds when it is asked to arm: the devices, and what it sees of the window.
  datatype Sight = Sight(k: nat, p: nat, view: bool, onOutput: bool, unclear: bool, nonce: nat)

  // What the guardian makes of an answer. An incomplete one does not say that the plugin is armed,
  // or holds no rejection counter.
  datatype Answer = Lost | Refused | Incomplete | Granted(rejected: nat)

  // Both read one clock: the guardian in microseconds, the plugin in nanoseconds.
  predicate OneClock(g: Guardian, plugin: State)
    reads g`now, plugin`now
  {
    g.now * 1000 <= plugin.now
  }

  // The plugin's lease ends within a millisecond before the guardian's deadline, and not after it.
  ghost predicate LeasedUntil(l: Link, plugin: State, token: nat, deadlineUs: nat)
    reads l`fd, plugin`armed, plugin`guardianFD, plugin`token, plugin`deadline
  {
    && plugin.armed && plugin.guardianFD == l.fd && plugin.token == token
    && (deadlineUs - 999) * 1000 <= plugin.deadline <= deadlineUs * 1000
  }

  ghost predicate OwnConnection(l: Link, plugin: State)
    reads l`fd, plugin`peers
  {
    l.fd.Some? && l.fd.value in plugin.peers && plugin.peers[l.fd.value].proc == l.proc
  }

  // The clock is in its range, and the deadline is still ahead when the request arrives.
  ghost predicate InRange(plugin: State, deadlineUs: nat)
    reads plugin`now
  {
    plugin.now <= 0x7fff_ffff_ffff_ffff - 250_000_000 && plugin.now < deadlineUs * 1000
  }

  ghost predicate WillArm(l: Link, plugin: State, token: nat, deadlineUs: nat, s: Sight)
    reads l`fd, plugin
  {
    && OwnConnection(l, plugin) && InRange(plugin, deadlineUs) && !plugin.armed && !plugin.failed
    && s.nonce !in plugin.owners
    && plugin.Armable(l.fd.value, token, s.k, s.p, s.view, s.onOutput, s.unclear)
  }

  ghost predicate WillRenew(l: Link, plugin: State, deadlineUs: nat, view: bool)
    reads l`fd, l`armToken, plugin
  {
    && OwnConnection(l, plugin) && InRange(plugin, deadlineUs)
    && plugin.guardianFD == l.fd && plugin.token == l.armToken && plugin.Stands(view)
  }

  // From the request to the plugin's expiry.
  lemma Composed(sentUs: nat, nowNs: int, deadlineUs: nat)
    requires sentUs * 1000 <= nowNs && Deadline.Ask(sentUs, deadlineUs).Request?
    ensures var r := Deadline.Ask(sentUs, deadlineUs);
            var expiry := Deadline.BoundedDeadline(nowNs, r.absoluteNs, r.leaseMs);
      && (nowNs <= Deadline.INT64_MAX - Deadline.MAXIMUM && nowNs < deadlineUs * 1000 ==> expiry != 0)
      && (expiry != 0 ==> (deadlineUs - 999) * 1000 <= expiry <= deadlineUs * 1000)
  {
    var r := Deadline.Ask(sentUs, deadlineUs);
    Deadline.LeaseIsBounded(nowNs, r.absoluteNs, r.leaseMs);
    assert r.absoluteNs <= deadlineUs * 1000;
    if nowNs <= Deadline.INT64_MAX - Deadline.MAXIMUM && nowNs < deadlineUs * 1000 {
      assert sentUs * 1000 / 1000 == sentUs;
      Deadline.LeaseLosesUnderOneMillisecond(sentUs * 1000, nowNs, deadlineUs);
    }
  }

  // The arm request and its answer. obey: the connection and its answer are in order, and nothing
  // else happens to the plugin.
  method AskArm(l: Link, plugin: State, token: nat, sentUs: nat, deadlineUs: nat, s: Sight, obey: bool)
    returns (answer: Answer)
    requires plugin.Valid() && sentUs * 1000 <= plugin.now && Deadline.Ask(sentUs, deadlineUs).Request?
    modifies plugin, l`fd
    ensures plugin.Valid() && plugin.now >= old(plugin.now)
    ensures l.fd == (if answer.Lost? then None else old(l.fd)) && (answer.Lost? || l.fd.Some?)
    ensures obey && old(WillArm(l, plugin, token, deadlineUs, s)) ==> answer.Granted?
    ensures obey && answer.Granted? ==> LeasedUntil(l, plugin, token, deadlineUs)
  {
    hide State.Valid, State.Kept, State.LeaseKept, State.Stands, State.Armable, Deadline.Ask,
      Deadline.BoundedDeadline;
    if l.fd.None? {
      return Lost;
    }
    var fd := l.fd.value;
    Meanwhile(plugin, "", obey);
    var arrives: bool :| obey ==> arrives;
    if !arrives || fd !in plugin.peers || plugin.peers[fd].proc != l.proc || s.nonce in plugin.owners {
      l.fd := None;
      return Lost;
    }
    Composed(sentUs, plugin.now, deadlineUs);
    var r := Deadline.Ask(sentUs, deadlineUs);
    var ok := plugin.ArmFenced(fd, r.absoluteNs, r.leaseMs, token, s.k, s.p, s.view, s.onOutput, s.unclear, s.nonce);
    Meanwhile(plugin, "", obey);
    answer := Received(l, ok, obey);
  }

  // The answer on its way back. It must be complete, in time, and well formed.
  method Received(l: Link, ok: bool, obey: bool) returns (answer: Answer)
    modifies l`fd
    ensures l.fd == (if answer.Lost? then None else old(l.fd)) && (answer.Granted? ==> ok) && (answer.Refused? ==> !ok)
    ensures obey ==> answer == if ok then Granted(l.rejected) else Refused
  {
    var returned: bool :| obey ==> returned;
    var complete: bool :| obey ==> complete;
    var count: nat :| obey ==> count == l.rejected;
    if !returned {
      l.fd := None;
      return Lost;
    }
    answer := if !ok then Refused else if complete then Granted(count) else Incomplete;
  }

  method AskRenew(l: Link, plugin: State, sentUs: nat, deadlineUs: nat, view: bool, obey: bool) returns (answer: Answer)
    requires plugin.Valid() && sentUs * 1000 <= plugin.now && Deadline.Ask(sentUs, deadlineUs).Request?
    modifies plugin, l`fd
    ensures plugin.Valid() && plugin.now >= old(plugin.now)
    ensures l.fd == (if answer.Lost? then None else old(l.fd)) && (answer.Lost? || l.fd.Some?)
    ensures obey && old(WillRenew(l, plugin, deadlineUs, view)) ==> answer == Granted(l.rejected)
    ensures obey && answer.Granted? ==> answer.rejected == l.rejected && LeasedUntil(l, plugin, l.armToken, deadlineUs)
  {
    hide State.Valid, State.Kept, State.LeaseKept, State.Stands, Deadline.Ask, Deadline.BoundedDeadline;
    if l.fd.None? {
      return Lost;
    }
    var fd := l.fd.value;
    Meanwhile(plugin, "", obey);
    var arrives: bool :| obey ==> arrives;
    if !arrives || fd !in plugin.peers || plugin.peers[fd].proc != l.proc {
      l.fd := None;
      return Lost;
    }
    Composed(sentUs, plugin.now, deadlineUs);
    var r := Deadline.Ask(sentUs, deadlineUs);
    var ok := plugin.RenewFenced(fd, r.absoluteNs, r.leaseMs, l.armToken, view);
    Meanwhile(plugin, "", obey);
    answer := Received(l, ok, obey);
  }

  // The guardian looks at the clock; it stands still, if obey is set.
  method ReadClock(g: Guardian, plugin: State, obey: bool)
    requires g.ActionOk() && OneClock(g, plugin)
    modifies g`now
    ensures g.ActionOk() && OneClock(g, plugin) && g.now >= old(g.now) && (obey ==> g.now == old(g.now))
  {
    var t: int :| obey ==> t <= g.now;
    if g.now < t && t * 1000 <= plugin.now { g.now := t; }
  }

  // scope_bind() for a first lease. Local refusals leave no trace; once the request is on its way,
  // scope may have been acquired, unless the answer is, completely, a refusal.
  method Bind(l: Link, g: Guardian, plugin: State, token: Option<nat>, deadlineUs: nat, s: Sight, obey: bool)
    returns (granted: bool)
    requires plugin.Valid() && g.ActionOk() && OneClock(g, plugin)
    modifies plugin, l`fd, l`armRefused, l`armToken, l`armAttempted, l`notRequired, l`rejected, g`now
    ensures plugin.Valid() && g.ActionOk() && OneClock(g, plugin) && g.now >= old(g.now)
    ensures granted ==> !l.armRefused && l.armAttempted && l.fd.Some? && token == Some(l.armToken) && g.now < deadlineUs
    ensures l.armRefused ==> l.armAttempted && l.fd == old(l.fd) && token.Some?
    ensures old(l.armAttempted) ==> l.armAttempted
    ensures obey && (token.None? || Deadline.Ask(old(g.now), deadlineUs).NoRequest?) ==>
      !granted && l.armAttempted == old(l.armAttempted) && l.fd == old(l.fd) && unchanged(plugin)
    ensures obey && token.Some? && Deadline.Ask(old(g.now), deadlineUs).Request? ==>
      old(WillArm(l, plugin, token.value, deadlineUs, s)) ==> granted
    ensures obey && granted ==> LeasedUntil(l, plugin, l.armToken, deadlineUs)
  {
    hide State.Valid, Guardian.ActionOk, WillArm, LeasedUntil, Deadline.Ask;
    granted, l.armRefused := false, false;
    if token.None? {
      return;
    }
    ReadClock(g, plugin, obey);
    Deadline.AsksWhenAMillisecondRemains(g.now, deadlineUs);
    if Deadline.Ask(g.now, deadlineUs).NoRequest? {
      return;
    }
    l.armToken, l.armAttempted, l.notRequired := token.value, true, false;
    var answer := AskArm(l, plugin, token.value, g.now, deadlineUs, s, obey);
    granted := Taken(l, g, plugin, answer, deadlineUs, obey);
  }

  // What an answer to an arm is taken for: a grant counts while its deadline is ahead.
  method Taken(l: Link, g: Guardian, plugin: State, answer: Answer, deadlineUs: nat, obey: bool)
    returns (granted: bool)
    requires g.ActionOk() && OneClock(g, plugin) && !l.armRefused
    modifies l`armRefused, l`rejected, g`now
    ensures g.ActionOk() && OneClock(g, plugin) && g.now >= old(g.now)
    ensures l.armRefused == answer.Refused? && (granted ==> answer.Granted? && g.now < deadlineUs)
    ensures l.rejected == if answer.Granted? then answer.rejected else old(l.rejected)
    ensures obey && answer.Granted? && old(g.now) < deadlineUs ==> granted
  {
    hide Guardian.ActionOk;
    granted := false;
    match answer {
      case Granted(count) =>
        l.rejected := count;
        ReadClock(g, plugin, obey);
        granted := g.now < deadlineUs;
      case Refused => l.armRefused := true;
      case _ =>
    }
  }

  // The B command: the lease of an action counts from before the plugin was asked. A refusal by the
  // plugin is the guardian's end.
  method Begin(l: Link, g: Guardian, plugin: State, ms: nat, token: Option<nat>, deadlineUs: nat, s: Sight, obey: bool)
    returns (ok: bool)
    requires plugin.Valid() && g.ActionOk() && !g.action && !g.failed && Bound(l, g) && OneClock(g, plugin)
    modifies plugin, l, g`now, g`lease, g`scopeDeadline, g`begun, g`failed, g.table`planned
    ensures plugin.Valid() && g.ActionOk() && Bound(l, g) && OneClock(g, plugin)
    ensures ok ==> old(!g.begun) && g.begun && !g.failed && l.fd.Some? && g.now < deadlineUs == g.scopeDeadline
    ensures ok ==> old(g.now) + ms * 1000 <= g.lease <= g.now + ms * 1000
    ensures !ok ==> g.begun == old(g.begun)
    ensures g.failed ==> l.armRefused
    ensures obey && ok ==> LeasedUntil(l, plugin, l.armToken, deadlineUs)
    ensures obey && old(!g.begun) && 1 <= ms <= 2000 && token.Some? && Deadline.Ask(old(g.now), deadlineUs).Request? ==>
      deadlineUs < TWO64 && old(WillArm(l, plugin, token.value, deadlineUs, s)) ==> ok
  {
    hide State.Valid, Guardian.ActionOk, WillArm, LeasedUntil;
    ok := false;
    if g.begun || ms < 1 || ms > 2000 || deadlineUs < 1 || deadlineUs >= TWO64 {
      return;
    }
    ReadClock(g, plugin, obey);
    var start := g.now;
    var granted := Bind(l, g, plugin, token, deadlineUs, s, obey);
    ok := g.Begin(ms, deadlineUs, start, granted);
    if l.armRefused { g.Fail(); }
  }

  // The O command: the scope deadline moves forward once the plugin has granted it, and shows no
  // rejected input since.
  method Extend(l: Link, g: Guardian, plugin: State, token: Option<nat>, deadlineUs: nat, view: bool, obey: bool)
    returns (ok: bool)
    requires plugin.Valid() && g.ActionOk() && g.begun && !g.failed && OneClock(g, plugin)
    modifies plugin, l`fd, g`now, g`scopeDeadline, g`failed
    ensures plugin.Valid() && g.ActionOk() && OneClock(g, plugin)
    ensures g.scopeDeadline == if ok then deadlineUs else old(g.scopeDeadline)
    ensures ok ==> old(g.scopeDeadline) < deadlineUs && g.now < deadlineUs && !g.failed
    ensures obey && ok ==> LeasedUntil(l, plugin, l.armToken, deadlineUs)
    ensures obey && token.Some? && Deadline.Ask(old(g.now), deadlineUs).Request? ==>
      old(g.scopeDeadline < deadlineUs && WillRenew(l, plugin, deadlineUs, view)) ==> ok
  {
    hide State.Valid, Guardian.ActionOk, State.Stands;
    ok := false;
    if deadlineUs <= g.scopeDeadline || token.None? {
      return;
    }
    ReadClock(g, plugin, obey);
    if Deadline.Ask(g.now, deadlineUs).NoRequest? {
      return;
    }
    var answer := AskRenew(l, plugin, g.now, deadlineUs, view, obey);
    if answer.Refused? { g.Fail(); }
    if !answer.Granted? || answer.rejected != l.rejected {
      return;
    }
    ReadClock(g, plugin, obey);
    if g.now < deadlineUs { ok := g.Renewed(deadlineUs); }
  }
}
