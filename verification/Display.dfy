// A display, and the restoration of a topology on it.
module Displays {
  import opened Options
  import opened Lists
  import opened RandR

  function Off(c: Crtc): Crtc { Crtc(c.id, 0, 0, 0, 0, 0, 1, [], c.fixed) }

  predicate Fits(c: Crtc, modes: map<nat, Mode>, screen: Size) {
    if c.mode == 0 then Disabled(c) else Enabled(c, modes, screen) && NoRepeats(c.outputs)
  }

  // An output is assigned to the one CRTC that shows it.
  ghost predicate Consistent(crtcs: map<nat, Crtc>, outputs: map<nat, Output>) {
    && (forall c, o :: c in crtcs && o in crtcs[c].outputs ==> o in outputs && outputs[o].crtc == c)
    && (forall o ::
      o in outputs && outputs[o].crtc != 0 ==> outputs[o].crtc in crtcs && o in crtcs[outputs[o].crtc].outputs)
  }

  // The same outputs, but for their assignment.
  ghost predicate SameOutputs(a: map<nat, Output>, b: map<nat, Output>) {
    a.Keys == b.Keys && forall o :: o in a ==> a[o].(crtc := 0) == b[o].(crtc := 0)
  }

  datatype Config = Config(id: nat, x: int, y: int, mode: nat, rotation: bv16, outs: seq<nat>)

  // The protocol's conditions: nothing is shown by a disabled CRTC; an enabled one has a mode, a
  // supported rotation, its whole extent inside the framebuffer, and outputs that can show the
  // mode and that no other CRTC shows.
  ghost predicate Allowed(modes: map<nat, Mode>, screen: Size, crtcs: map<nat, Crtc>, outputs: map<nat, Output>,
                          c: Config)
    requires c.id in crtcs
  {
    if c.mode == 0 then c.x == 0 && c.y == 0 && c.rotation == 1 && c.outs == []
    else
      && c.mode in modes && c.outs != [] && NoRepeats(c.outs)
        && RotationOk(c.rotation, crtcs[c.id].fixed.possibleRotations)
      && Inside(c.x, c.y, Extent(modes[c.mode], c.rotation), screen)
      && (forall o <- c.outs :: o in outputs && c.id in outputs[o].crtcs && c.mode in outputs[o].modes)
      && (forall o <- c.outs, d :: d in crtcs && d != c.id ==> o !in crtcs[d].outputs)
  }

  // An output belongs to the CRTC it is shown on now, and to none if it was on that one before.
  function Reassigned(outputs: map<nat, Output>, id: nat, outs: seq<nat>): map<nat, Output> {
    map o | o in outputs ::
      if o in outs then outputs[o].(crtc := id)
        else if outputs[o].crtc == id then outputs[o].(crtc := 0) else outputs[o]
  }

  lemma ReassignedConsistent(crtcs: map<nat, Crtc>, outputs: map<nat, Output>, c: Crtc)
    requires Consistent(crtcs, outputs) && c.id in crtcs && forall o <- c.outputs :: o in outputs
    requires forall o <- c.outputs, d :: d in crtcs && d != c.id ==> o !in crtcs[d].outputs
    ensures Consistent(crtcs[c.id := c], Reassigned(outputs, c.id, c.outputs))
  {}

  lemma ReassignedSame(outputs: map<nat, Output>, id: nat, outs: seq<nat>)
    ensures SameOutputs(outputs, outputs) && SameOutputs(outputs, Reassigned(outputs, id, outs))
    ensures Keyed(outputs) ==> Keyed(Reassigned(outputs, id, outs))
  {}

  class Display {
    const root: nat
    const modes: map<nat, Mode>
    const range: Range
    var screen: Size
    var primary: nat
    var crtcs: map<nat, Crtc>
    var outputs: map<nat, Output>
    ghost var failures: nat      // requests the server failed

    // Every enabled CRTC lies inside the framebuffer, every output is on one CRTC at most, and
    // the framebuffer is in range.
    ghost predicate Legal()
      reads this
    {
      && InRange(screen, range) && Keyed(outputs) && (forall c :: c in crtcs ==> crtcs[c].id == c)
      && (forall c :: c in crtcs ==> Fits(crtcs[c], modes, screen))
      && Consistent(crtcs, outputs)
    }

    constructor (root: nat, modes: map<nat, Mode>, range: Range, screen: Size)
      requires InRange(screen, range)
      ensures Legal() && crtcs == map[] && outputs == map[] && this.screen == screen && failures == 0
    {
      this.root, this.modes, this.range, this.screen := root, modes, range, screen;
      primary, crtcs, outputs, failures := 0, map[], map[], 0;
    }

    // RRSetCrtcConfig, where the protocol allows it. The server may still fail it.
    method SetCrtc(id: nat, x: int, y: int, mode: nat, rotation: bv16, outs: seq<nat>) returns (ok: bool)
      requires Legal() && id in crtcs && Allowed(modes, screen, crtcs, outputs, Config(id, x, y, mode, rotation, outs))
      modifies this`crtcs, this`outputs, this`failures
      ensures Legal() && SameOutputs(old(outputs), outputs)
      ensures !ok ==> crtcs == old(crtcs) && outputs == old(outputs) && failures > old(failures)
      ensures ok ==> failures == old(failures)
      ensures ok ==> var extent := if mode == 0 then (0, 0) else Extent(modes[mode], rotation);
        crtcs == old(crtcs)[id := Crtc(id, x, y, extent.0, extent.1, mode, rotation, outs, old(crtcs)[id].fixed)]
    {
      hide Consistent, RotationOk, Inside, NoRepeats, SameOutputs, Keyed;
      ok := *;
      if !ok {
        failures := failures + 1;
        ReassignedSame(outputs, id, []);
        return;
      }
      var extent := if mode == 0 then (0, 0) else Extent(modes[mode], rotation);
      var c := Crtc(id, x, y, extent.0, extent.1, mode, rotation, outs, crtcs[id].fixed);
      ReassignedConsistent(crtcs, outputs, c);
      ReassignedSame(outputs, id, outs);
      crtcs, outputs := crtcs[id := c], Reassigned(outputs, id, outs);
    }

    // RRSetScreenSize: in range, and every enabled CRTC inside the new size.
    method SetScreen(size: Size) returns (ok: bool)
      requires Legal() && InRange(size, range)
      requires forall c :: c in crtcs && crtcs[c].mode != 0 ==>
        Inside(crtcs[c].x, crtcs[c].y, (crtcs[c].width, crtcs[c].height), size)
      modifies this`screen, this`failures
      ensures Legal() && (ok ==> screen == size && failures == old(failures))
      ensures !ok ==> screen == old(screen) && failures > old(failures)
    {
      ok := *;
      if ok { screen := size; } else { failures := failures + 1; }
    }

    // RRSetOutputPrimary
    method SetPrimary(output: nat) returns (ok: bool)
      requires Legal() && (output == 0 || output in outputs)
      modifies this`primary, this`failures
      ensures Legal() && (ok ==> primary == output && failures == old(failures))
      ensures !ok ==> primary == old(primary) && failures > old(failures)
    {
      ok := *;
      if ok { primary := output; } else { failures := failures + 1; }
    }

    // What capture() reads. Monitors follow from the rest, as all of them are automatic.
    ghost predicate Shows(s: Snapshot)
      reads this
    {
      && DistinctModes(s.modes) && DistinctOutputs(s.outputs) && DistinctCrtcs(s.crtcs)
      && s.root == root && s.range == range && s.screen == screen && s.primary == primary
      && ModesById(s.modes) == modes && OutputsById(s.outputs) == outputs && CrtcsById(s.crtcs) == crtcs
    }
  }

  // ---- _inventory() ----

  predicate SameInventory(a: Snapshot, b: Snapshot) {
    && a.root == b.root && a.range == b.range && a.modes == b.modes
    && |a.outputs| == |b.outputs| && (forall i ::
      0 <= i < |a.outputs| ==> a.outputs[i].(crtc := 0) == b.outputs[i].(crtc := 0))
    && |a.crtcs| == |b.crtcs| && (forall i :: 0 <= i < |a.crtcs| ==> Off(a.crtcs[i]) == Off(b.crtcs[i]))
  }

  // What may differ is which CRTC shows what, and nothing else.
  lemma InventoryMeans(a: Snapshot, b: Snapshot)
    ensures SameInventory(a, b) <==>
      && a.root == b.root && a.range == b.range && a.modes == b.modes
      && |a.outputs| == |b.outputs| && |a.crtcs| == |b.crtcs|
      && (forall i :: 0 <= i < |a.outputs| ==> SameOutput(a.outputs[i], b.outputs[i]))
      && (forall i :: 0 <= i < |a.crtcs| ==> a.crtcs[i].id == b.crtcs[i].id && a.crtcs[i].fixed == b.crtcs[i].fixed)
  {
    assert forall i :: 0 <= i < |a.outputs| == |b.outputs| ==>
      (a.outputs[i].(crtc := 0) == b.outputs[i].(crtc := 0) <==> SameOutput(a.outputs[i], b.outputs[i]));
  }

  predicate SameOutput(o: Output, p: Output) {
    o.id == p.id && o.connection == p.connection && o.crtcs == p.crtcs && o.modes == p.modes && o.name == p.name
  }

  datatype Outcome = Refused | NoChange | Failed | Restored

  lemma ById(cs: seq<Crtc>, i: nat)
    requires DistinctCrtcs(cs) && i < |cs|
    ensures cs[i].id in CrtcsById(cs) && CrtcsById(cs)[cs[i].id] == cs[i]
  {
    assert cs[i] in cs;
  }

  lemma ByIdOnly(cs: seq<Crtc>, id: nat) returns (i: nat)
    requires DistinctCrtcs(cs) && id in CrtcsById(cs)
    ensures i < |cs| && cs[i].id == id && CrtcsById(cs)[id] == cs[i]
  {
    var c :| c in cs && c.id == id;
    i :| 0 <= i < |cs| && cs[i] == c;
    ById(cs, i);
  }

  // Changing one CRTC of a list changes one entry.
  lemma Updated(cs: seq<Crtc>, i: nat, c: Crtc)
    requires DistinctCrtcs(cs) && i < |cs| && c.id == cs[i].id
    ensures DistinctCrtcs(cs[i := c]) && CrtcsById(cs[i := c]) == CrtcsById(cs)[c.id := c]
  {
    hide CrtcsById;
    var cs', m := cs[i := c], CrtcsById(cs);
    UpdatedDistinct(cs, i, c);
    var m' := CrtcsById(cs');
    forall id ensures id in m' <==> id in m {
      if id in m { var k := ByIdOnly(cs, id); ById(cs', k); }
      if id in m' { var k := ByIdOnly(cs', id); ById(cs, k); }
    }
    ById(cs, i);
    forall id | id in m' ensures m'[id] == m[c.id := c][id] {
      var k := ByIdOnly(cs', id);
      ById(cs, k);
    }
    assert m'.Keys == m[c.id := c].Keys;
  }

  lemma UpdatedDistinct(cs: seq<Crtc>, i: nat, c: Crtc)
    requires DistinctCrtcs(cs) && i < |cs| && c.id == cs[i].id
    ensures DistinctCrtcs(cs[i := c])
  {}

  // A representable topology is a legal one.
  lemma RepresentableIsLegal(s: Snapshot)
    requires Representable(s)
    ensures var crtcs := CrtcsById(s.crtcs);
      && (forall id :: id in crtcs ==> crtcs[id].id == id && Fits(crtcs[id], ModesById(s.modes), s.screen))
      && Consistent(crtcs, OutputsById(s.outputs))
  {
    var modes, outputs, crtcs := ModesById(s.modes), OutputsById(s.outputs), CrtcsById(s.crtcs);
    forall id | id in crtcs ensures crtcs[id].id == id && Fits(crtcs[id], modes, s.screen) {
      var i := ByIdOnly(s.crtcs, id);
      assert CrtcOk(s.crtcs[i], modes, outputs, s.screen);
    }
    forall id, o | id in crtcs && o in crtcs[id].outputs ensures o in outputs && outputs[o].crtc == id {
      var i := ByIdOnly(s.crtcs, id);
      assert CrtcOk(s.crtcs[i], modes, outputs, s.screen);
    }
    forall o | o in outputs && outputs[o].crtc != 0 ensures outputs[o].crtc in crtcs
      && o in crtcs[outputs[o].crtc].outputs {
      var out := outputs[o];
      assert out in s.outputs && out.id == o;
      var i :| 0 <= i < |s.crtcs| && o in s.crtcs[i].outputs;
      ById(s.crtcs, i);
      assert CrtcOk(s.crtcs[i], modes, outputs, s.screen);
    }
  }

  lemma ShownIsLegal(d: Display, s: Snapshot)
    requires Representable(s) && d.Shows(s)
    ensures d.Legal()
  {
    hide Fits, Consistent;
    RepresentableIsLegal(s);
    OutputsKeyed(s.outputs);
  }

  // The CRTCs determine which output is where.
  lemma OutputsDetermined(crtcs: map<nat, Crtc>, a: map<nat, Output>, b: map<nat, Output>)
    requires Consistent(crtcs, a) && Consistent(crtcs, b) && SameOutputs(a, b)
    ensures a == b
  {
    forall o | o in a ensures a[o] == b[o] {
      if a[o].crtc != 0 { assert o in crtcs[a[o].crtc].outputs; }
      if b[o].crtc != 0 { assert o in crtcs[b[o].crtc].outputs; }
      assert a[o] == a[o].(crtc := 0).(crtc := a[o].crtc);
    }
  }
}
