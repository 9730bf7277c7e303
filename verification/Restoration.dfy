// _restore_locked(): disable what changed, grow, set, shrink.
module Restoration {
  import opened Options
  import opened Lists
  import opened RandR
  import opened Displays

  // The places where two inventories differ, in order.
  function Changed(a: seq<Crtc>, b: seq<Crtc>, n: nat): (r: seq<nat>)
    requires n <= |a| && n <= |b|
  {
    if n == 0 then [] else Changed(a, b, n - 1) + if a[n - 1] != b[n - 1] then [n - 1] else []
  }

  lemma {:induction false} ChangedPlaces(a: seq<Crtc>, b: seq<Crtc>, n: nat)
    requires n <= |a| && n <= |b|
    ensures forall i :: i in Changed(a, b, n) <==> 0 <= i < n && a[i] != b[i]
    ensures forall j, k :: 0 <= j < k < |Changed(a, b, n)| ==> Changed(a, b, n)[j] < Changed(a, b, n)[k]
  {
    if n > 0 {
      ChangedPlaces(a, b, n - 1);
      var before := Changed(a, b, n - 1);
      assert forall j :: 0 <= j < |before| ==> before[j] in before;
    }
  }

  // now lists what a display shows, place by place of the inventory of b.
  predicate Listed(now: seq<Crtc>, b: Snapshot) {
    DistinctCrtcs(now) && |now| == |b.crtcs| && forall i :: 0 <= i < |now| ==> Off(now[i]) == Off(b.crtcs[i])
  }

  lemma StillListed(now: seq<Crtc>, b: Snapshot, i: nat, c: Crtc)
    requires Listed(now, b) && i < |now| && Off(c) == Off(b.crtcs[i])
    ensures c.id in CrtcsById(now) && CrtcsById(now)[c.id].fixed == c.fixed
    ensures Listed(now[i := c], b) && CrtcsById(now[i := c]) == CrtcsById(now)[c.id := c]
  {
    assert Off(now[i]) == Off(c);
    ById(now, i);
    Updated(now, i, c);
  }

  // The rest of the display, as b has it but for the assignments.
  ghost predicate Alike(d: Display, b: Snapshot)
    reads d
    requires DistinctModes(b.modes) && DistinctOutputs(b.outputs)
  {
    d.root == b.root && d.modes == ModesById(b.modes) && d.range == b.range
      && SameOutputs(OutputsById(b.outputs), d.outputs)
  }

  ghost predicate Showing(d: Display, now: seq<Crtc>, b: Snapshot)
    reads d
  {
    Representable(b) && d.Legal() && Listed(now, b) && d.crtcs == CrtcsById(now) && Alike(d, b)
  }

  lemma StillAlike(a: map<nat, Output>, b: map<nat, Output>, c: map<nat, Output>)
    requires SameOutputs(a, b) && SameOutputs(b, c)
    ensures SameOutputs(a, c)
  {}

  method TurnOff(d: Display, i: nat, ghost now: seq<Crtc>, b: Snapshot) returns (ok: bool, ghost now': seq<Crtc>)
    requires Showing(d, now, b) && i < |now|
    modifies d`crtcs, d`outputs, d`failures
    ensures d.Legal() && (!ok ==> d.failures > old(d.failures))
    ensures ok ==> d.failures == old(d.failures) && now' == now[i := Off(b.crtcs[i])] && Showing(d, now', b)
  {
    hide Representable, Display.Legal, Listed, SameOutputs, CrtcsById;
    Lengths(now, b);
    StillListed(now, b, i, Off(b.crtcs[i]));
    now' := now[i := Off(b.crtcs[i])];
    ok := d.SetCrtc(b.crtcs[i].id, 0, 0, 0, 1, []);
    if ok { StillAlike(OutputsById(b.outputs), old(d.outputs), d.outputs); }
  }

  lemma Lengths(now: seq<Crtc>, b: Snapshot)
    requires Listed(now, b) && Representable(b)
    ensures |now| == |b.crtcs| && DistinctModes(b.modes) && DistinctOutputs(b.outputs) && DistinctCrtcs(b.crtcs)
  {}

  // What a wanted CRTC asks for is free: whatever else is on is wanted too, and wants other outputs.
  lemma Free(i: nat, now: seq<Crtc>, b: Snapshot)
    requires Listed(now, b) && Representable(b) && i < |now|
    requires forall k :: 0 <= k < |now| ==> now[k] == b.crtcs[k] || now[k].outputs == []
    ensures forall o <- b.crtcs[i].outputs, c ::
      c in CrtcsById(now) && c != b.crtcs[i].id ==> o !in CrtcsById(now)[c].outputs
  {
    forall o <- b.crtcs[i].outputs, c | c in CrtcsById(now) && c != b.crtcs[i].id
      ensures o !in CrtcsById(now)[c].outputs
    {
      var k := ByIdOnly(now, c);
      assert CrtcOk(b.crtcs[i], ModesById(b.modes), OutputsById(b.outputs), b.screen);
      assert CrtcOk(b.crtcs[k], ModesById(b.modes), OutputsById(b.outputs), b.screen);
    }
  }

  // A wanted CRTC meets the rest of the protocol's conditions on any framebuffer that is large enough.
  lemma Settable(i: nat, now: seq<Crtc>, b: Snapshot, outputs: map<nat, Output>, screen: Size)
    requires Listed(now, b) && Representable(b) && i < |now| && b.crtcs[i].mode != 0
    requires forall k :: 0 <= k < |now| ==> now[k] == b.crtcs[k] || now[k].outputs == []
    requires SameOutputs(OutputsById(b.outputs), outputs)
    requires b.screen.width <= screen.width && b.screen.height <= screen.height
    ensures var c := b.crtcs[i];
      && c.id in CrtcsById(now) && c.mode in ModesById(b.modes)
      && Extent(ModesById(b.modes)[c.mode], c.rotation) == (c.width, c.height)
      && Allowed(ModesById(b.modes), screen, CrtcsById(now), outputs,
        Config(c.id, c.x, c.y, c.mode, c.rotation, c.outputs))
  {
    hide RotationOk, NoRepeats, Extent;
    var c := b.crtcs[i];
    ById(now, i);
    Free(i, now, b);
    assert Off(now[i]) == Off(c);
    WantedIsOk(i, b);
    forall o <- c.outputs ensures o in outputs && c.id in outputs[o].crtcs && c.mode in outputs[o].modes {
      var was := OutputsById(b.outputs)[o];
      assert outputs[o].(crtc := 0) == was.(crtc := 0);
    }
  }

  lemma WantedIsOk(i: nat, b: Snapshot)
    requires Representable(b) && i < |b.crtcs| && b.crtcs[i].mode != 0
    ensures Enabled(b.crtcs[i], ModesById(b.modes), b.screen) && Assigned(b.crtcs[i], OutputsById(b.outputs))
  {}

  method TurnOn(d: Display, i: nat, ghost now: seq<Crtc>, b: Snapshot) returns (ok: bool, ghost now': seq<Crtc>)
    requires Showing(d, now, b) && i < |now| && b.crtcs[i].mode != 0
    requires b.screen.width <= d.screen.width && b.screen.height <= d.screen.height
    requires forall k :: 0 <= k < |now| ==> now[k] == b.crtcs[k] || now[k].outputs == []
    modifies d`crtcs, d`outputs, d`failures
    ensures d.Legal() && (!ok ==> d.failures > old(d.failures))
    ensures ok ==> d.failures == old(d.failures) && now' == now[i := b.crtcs[i]] && Showing(d, now', b)
  {
    hide Representable, Display.Legal, Listed, SameOutputs, CrtcsById, Allowed, Extent;
    Lengths(now, b);
    var c := b.crtcs[i];
    Settable(i, now, b, d.outputs, d.screen);
    StillListed(now, b, i, c);
    now' := now[i := c];
    ok := d.SetCrtc(c.id, c.x, c.y, c.mode, c.rotation, c.outputs);
    if ok { StillAlike(OutputsById(b.outputs), old(d.outputs), d.outputs); }
  }

  // Every changed CRTC that was passed is off, the others are as before.
  predicate TurnedOff(now: seq<Crtc>, a: seq<Crtc>, b: seq<Crtc>, changed: seq<nat>, j: nat) {
    |now| == |a| == |b| && j <= |changed|
      && forall i :: 0 <= i < |now| ==> now[i] == if i in changed[..j] then Off(b[i]) else a[i]
  }

  // Every changed CRTC that was passed is as wanted, the others are still off or never changed.
  predicate TurnedOn(now: seq<Crtc>, b: seq<Crtc>, changed: seq<nat>, j: nat) {
    |now| == |b| && j <= |changed|
      && forall i :: 0 <= i < |now| ==> now[i] == if i in changed[j..] then Off(b[i]) else b[i]
  }

  lemma OffStep(now: seq<Crtc>, a: Snapshot, b: Snapshot, changed: seq<nat>, j: nat)
    requires TurnedOff(now, a.crtcs, b.crtcs, changed, j) && j < |changed| && changed[j] < |now|
    requires Representable(a) && SameInventory(a, b)
    ensures TurnedOff(now[changed[j] := Off(b.crtcs[changed[j]])], a.crtcs, b.crtcs, changed, j + 1)
    ensures a.crtcs[changed[j]].mode == 0 ==> TurnedOff(now, a.crtcs, b.crtcs, changed, j + 1)
  {
    var i := changed[j];
    assert changed[..j + 1] == changed[..j] + [i];
    assert CrtcOk(a.crtcs[i], ModesById(a.modes), OutputsById(a.outputs), a.screen);
    assert Off(a.crtcs[i]) == Off(b.crtcs[i]);
  }

  lemma OnStep(now: seq<Crtc>, b: Snapshot, changed: seq<nat>, j: nat)
    requires TurnedOn(now, b.crtcs, changed, j) && j < |changed| && changed[j] < |now| && Representable(b)
    requires forall k, l :: 0 <= k < l < |changed| ==> changed[k] < changed[l]
    ensures TurnedOn(now[changed[j] := b.crtcs[changed[j]]], b.crtcs, changed, j + 1)
    ensures b.crtcs[changed[j]].mode == 0 ==> TurnedOn(now, b.crtcs, changed, j + 1)
    ensures forall k :: 0 <= k < |now| ==> now[k] == b.crtcs[k] || now[k].outputs == []
  {
    var i := changed[j];
    assert changed[j..] == [i] + changed[j + 1..];
    assert i !in changed[j + 1..];
    assert CrtcOk(b.crtcs[i], ModesById(b.modes), OutputsById(b.outputs), b.screen);
  }

  method DisableChanged(d: Display, ghost a: Snapshot, b: Snapshot, before: seq<Crtc>, changed: seq<nat>)
    returns (ok: bool, ghost now: seq<Crtc>)
    requires Showing(d, a.crtcs, b) && Representable(a) && SameInventory(a, b) && before == a.crtcs
    requires forall i <- changed :: i < |b.crtcs|
    modifies d`crtcs, d`outputs, d`failures
    ensures d.Legal() && (!ok ==> d.failures > old(d.failures))
    ensures ok ==>
      d.failures == old(d.failures) && Showing(d, now, b) && TurnedOff(now, a.crtcs, b.crtcs, changed, |changed|)
  {
    hide Representable, Showing, TurnedOff, SameInventory;
    now, ok := before, true;
    NoneOff(a, b, changed);
    ShowingIsLegal(d, now, b);
    var j := 0;
    while j < |changed|
      invariant 0 <= j <= |changed| && Showing(d, now, b) && d.Legal() && d.failures == old(d.failures)
      invariant TurnedOff(now, a.crtcs, b.crtcs, changed, j) && |now| == |b.crtcs| == |before|
    {
      assert changed[j] in changed;
      OffStep(now, a, b, changed, j);
      if before[changed[j]].mode != 0 {
        ok, now := TurnOff(d, changed[j], now, b);
        if !ok {
          return;
        }
      }
      j := j + 1;
    }
  }

  lemma NoneOff(a: Snapshot, b: Snapshot, changed: seq<nat>)
    requires SameInventory(a, b)
    ensures |a.crtcs| == |b.crtcs| && TurnedOff(a.crtcs, a.crtcs, b.crtcs, changed, 0)
  {}

  lemma ShowingIsLegal(d: Display, now: seq<Crtc>, b: Snapshot)
    requires Showing(d, now, b)
    ensures d.Legal() && |now| == |b.crtcs| && Representable(b)
  {}

  method EnableChanged(d: Display, b: Snapshot, ghost before: seq<Crtc>, changed: seq<nat>)
    returns (ok: bool, ghost now: seq<Crtc>)
    requires Showing(d, before, b) && TurnedOn(before, b.crtcs, changed, 0)
    requires b.screen.width <= d.screen.width && b.screen.height <= d.screen.height
    requires forall k, l :: 0 <= k < l < |changed| ==> changed[k] < changed[l]
    requires forall i <- changed :: i < |b.crtcs|
    modifies d`crtcs, d`outputs, d`failures
    ensures d.Legal() && (!ok ==> d.failures > old(d.failures))
    ensures ok ==> d.failures == old(d.failures) && Showing(d, now, b) && now == b.crtcs
  {
    hide Representable, Showing, TurnedOn;
    now, ok := before, true;
    ShowingIsLegal(d, now, b);
    var j := 0;
    while j < |changed|
      invariant 0 <= j <= |changed| && Showing(d, now, b) && d.Legal() && d.failures == old(d.failures)
      invariant TurnedOn(now, b.crtcs, changed, j) && |now| == |b.crtcs|
    {
      assert changed[j] in changed;
      OnStep(now, b, changed, j);
      if b.crtcs[changed[j]].mode != 0 {
        ok, now := TurnOn(d, changed[j], now, b);
        if !ok {
          return;
        }
      }
      j := j + 1;
    }
    AllOn(now, b.crtcs, changed);
  }

  lemma AllOn(now: seq<Crtc>, b: seq<Crtc>, changed: seq<nat>)
    requires TurnedOn(now, b, changed, |changed|)
    ensures now == b
  {}

  // The two ways the framebuffer is set: large enough for both topologies, then as wanted.
  method Grow(d: Display, b: Snapshot, ghost now: seq<Crtc>) returns (ok: bool)
    requires Showing(d, now, b)
    modifies d`screen, d`failures
    ensures d.Legal() && (!ok ==> d.failures > old(d.failures))
    ensures ok ==> d.failures == old(d.failures) && Showing(d, now, b)
    ensures ok ==> b.screen.width <= d.screen.width && b.screen.height <= d.screen.height
    ensures ok ==> d.screen == Interim(old(d.screen), b.screen)
  {
    hide Consistent, CrtcOk, Disabled, RotationOk;
    var interim := Interim(d.screen, b.screen);
    ok := true;
    if interim != d.screen { ok := d.SetScreen(interim); }
  }

  function Interim(current: Size, wanted: Size): Size {
    current.(width := if current.width >= wanted.width then current.width else wanted.width,
             height := if current.height >= wanted.height then current.height else wanted.height)
  }

  method Shrink(d: Display, b: Snapshot) returns (ok: bool)
    requires Showing(d, b.crtcs, b)
    modifies d`screen, d`failures
    ensures d.Legal() && (!ok ==> d.failures > old(d.failures))
    ensures ok ==> d.failures == old(d.failures) && Showing(d, b.crtcs, b) && d.screen == b.screen
  {
    hide Consistent, RotationOk, Fits;
    RepresentableIsLegal(b);
    InsideItsOwn(b);
    ok := true;
    if d.screen != b.screen { ok := d.SetScreen(b.screen); }
  }

  lemma InsideItsOwn(b: Snapshot)
    requires Representable(b)
    ensures forall id :: id in CrtcsById(b.crtcs) && CrtcsById(b.crtcs)[id].mode != 0 ==>
      var c := CrtcsById(b.crtcs)[id]; Inside(c.x, c.y, (c.width, c.height), b.screen)
  {
    RepresentableIsLegal(b);
  }

  lemma StartsShowing(d: Display, a: Snapshot, b: Snapshot)
    requires Representable(a) && Representable(b) && SameInventory(a, b) && d.Shows(a)
    ensures Showing(d, a.crtcs, b)
  {
    hide CrtcOk, Display.Legal;
    ShownIsLegal(d, a);
    AlikeOutputs(a.outputs, b.outputs);
  }

  lemma AlikeOutputs(a: seq<Output>, b: seq<Output>)
    requires DistinctOutputs(a) && DistinctOutputs(b) && |a| == |b|
    requires forall i :: 0 <= i < |a| ==> a[i].(crtc := 0) == b[i].(crtc := 0)
    ensures SameOutputs(OutputsById(b), OutputsById(a))
  {
    forall o ensures o in OutputsById(a) <==> o in OutputsById(b) {
      if o in OutputsById(a) { var i :| 0 <= i < |a| && a[i].id == o; assert b[i] in b; }
      if o in OutputsById(b) { var i :| 0 <= i < |b| && b[i].id == o; assert a[i] in a; }
    }
    forall o | o in OutputsById(a) ensures OutputsById(b)[o].(crtc := 0) == OutputsById(a)[o].(crtc := 0) {
      var i :| 0 <= i < |a| && a[i].id == o;
      assert a[i] in a && b[i] in b;
    }
  }

  // When the CRTCs, the framebuffer and the primary output are as wanted, everything is.
  lemma EndsShown(d: Display, b: Snapshot)
    requires Showing(d, b.crtcs, b) && d.screen == b.screen && d.primary == b.primary
    ensures d.Shows(b)
  {
    hide CrtcOk;
    RepresentableIsLegal(b);
    OutputsDetermined(d.crtcs, OutputsById(b.outputs), d.outputs);
  }

  // The writes, once everything has been checked. The state between any two of them is legal,
  // because every one of them is. If the server fails none, the display ends at the snapshot.
  method Rewrite(d: Display, current: Snapshot, snapshot: Snapshot) returns (ok: bool)
    requires Representable(current) && Representable(snapshot) && SameInventory(current, snapshot) && d.Shows(current)
    modifies d
    ensures d.Legal() && (ok <==> d.failures == old(d.failures)) && (ok ==> d.Shows(snapshot))
  {
    hide Representable, Showing, SameInventory, Display.Shows, TurnedOff, TurnedOn;
    StartsShowing(d, current, snapshot);
    NoneOff(current, snapshot, []);
    var changed := Changed(current.crtcs, snapshot.crtcs, |current.crtcs|);
    ChangedPlaces(current.crtcs, snapshot.crtcs, |current.crtcs|);
    ghost var now;
    ok, now := DisableChanged(d, current, snapshot, current.crtcs, changed);
    if !ok {
      return;
    }
    ok := Grow(d, snapshot, now);
    if !ok {
      return;
    }
    OffIsBeforeOn(now, current.crtcs, snapshot.crtcs, changed);
    ok, now := EnableChanged(d, snapshot, now, changed);
    if !ok {
      return;
    }
    ok := Shrink(d, snapshot);
    if !ok {
      return;
    }
    ok := Finish(d, snapshot);
  }

  lemma OffIsBeforeOn(now: seq<Crtc>, a: seq<Crtc>, b: seq<Crtc>, changed: seq<nat>)
    requires TurnedOff(now, a, b, changed, |changed|) && forall i :: i in changed <==> 0 <= i < |a| && a[i] != b[i]
    ensures TurnedOn(now, b, changed, 0)
  {
    assert changed[..|changed|] == changed && changed[0..] == changed;
  }

  method Finish(d: Display, snapshot: Snapshot) returns (ok: bool)
    requires Showing(d, snapshot.crtcs, snapshot) && d.screen == snapshot.screen
    modifies d`primary, d`failures
    ensures d.Legal() && (ok <==> d.failures == old(d.failures)) && (ok ==> d.Shows(snapshot))
  {
    hide CrtcOk, Display.Shows;
    ok := true;
    if d.primary != snapshot.primary { ok := d.SetPrimary(snapshot.primary); }
    if ok { EndsShown(d, snapshot); }
  }

  // _restore_locked(): current is what capture() read; held says whether input is held. The
  // display is touched only if both topologies are representable, share their inventory, and
  // differ; it is then restored exactly, unless the server fails a request.
  method Restore(d: Display, snapshot: Snapshot, current: Snapshot, held: bool) returns (r: Outcome)
    requires d.Shows(current)
    modifies d
    ensures r.Refused? <==>
      !Representable(snapshot) || !Representable(current)
        || (current != snapshot && (!SameInventory(current, snapshot) || held))
    ensures r.Refused? || r.NoChange? ==> unchanged(d)
    ensures r.NoChange? || r.Restored? ==> d.Shows(snapshot)
    ensures r.Failed? <==> d.failures != old(d.failures)
    ensures !r.Refused? ==> d.Legal()
  {
    hide Representable, SameInventory, Display.Shows;
    var wanted := Validate(snapshot);
    var given := Validate(current);
    if !wanted || !given {
      return Refused;
    }
    if current == snapshot {
      ShownIsLegal(d, snapshot);
      return NoChange;
    }
    if !SameInventory(current, snapshot) || held {
      return Refused;
    }
    var ok := Rewrite(d, current, snapshot);
    r := if ok then Restored else Failed;
  }
}
