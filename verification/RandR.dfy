// Exact restoration of a RandR topology: main_scratch_randr.py, against a display whose
// requests have the conditions of the RandR 1.5 protocol.
module RandR {
  import opened Options
  import opened Lists

  datatype Size = Size(width: int, height: int, mmWidth: int, mmHeight: int)

  datatype Range = Range(minWidth: int, minHeight: int, maxWidth: int, maxHeight: int)

  datatype Mode = Mode(id: nat, width: int, height: int, timings: seq<int>)

  // The part of a CRTC that a restoration never changes.
  datatype Fixed = Fixed(
    possibleRotations: bv16, possibleOutputs: seq<nat>, panning: seq<int>, currentTransform: seq<int>,
    pendingTransform: seq<int>, currentParams: seq<int>, pendingParams: seq<int>,
    currentFilter: string, pendingFilter: string)

  // mode 0: disabled
  datatype Crtc = Crtc(id: nat, x: int, y: int, width: int, height: int, mode: nat, rotation: bv16, outputs: seq<nat>,
    fixed: Fixed)

  // crtc 0: unassigned
  datatype Output = Output(id: nat, crtc: nat, connection: nat, crtcs: seq<nat>, modes: seq<nat>, name: string)

  datatype Snapshot = Snapshot(
    schema: int, root: nat, screen: Size, range: Range, primary: nat,
    modes: seq<Mode>, outputs: seq<Output>, crtcs: seq<Crtc>, automatic: seq<bool>)

  const IDENTITY: seq<int> := [65536, 0, 0, 0, 65536, 0, 0, 0, 65536]

  predicate InRange(size: Size, range: Range) {
    range.minWidth <= size.width <= range.maxWidth && range.minHeight <= size.height <= range.maxHeight
  }

  predicate DistinctModes(ms: seq<Mode>) { forall i, j :: 0 <= i < j < |ms| ==> ms[i].id != ms[j].id }

  predicate DistinctOutputs(os: seq<Output>) { forall i, j :: 0 <= i < j < |os| ==> os[i].id != os[j].id }

  predicate DistinctCrtcs(cs: seq<Crtc>) { forall i, j :: 0 <= i < j < |cs| ==> cs[i].id != cs[j].id }

  function ModesById(ms: seq<Mode>): map<nat, Mode>
    requires DistinctModes(ms)
  {
    map m <- ms :: m.id := m
  }

  function OutputsById(os: seq<Output>): map<nat, Output>
    requires DistinctOutputs(os)
  {
    map o <- os :: o.id := o
  }

  function CrtcsById(cs: seq<Crtc>): map<nat, Crtc>
    requires DistinctCrtcs(cs)
  {
    map c <- cs :: c.id := c
  }

  // ---- What can be restored exactly ----

  predicate PlainFilters(f: Fixed) {
    && f.currentTransform == IDENTITY && f.pendingTransform == IDENTITY
    && f.currentParams == [] && f.pendingParams == []
    && f.currentFilter in {"", "nearest", "bilinear"} && f.pendingFilter in {"", "nearest", "bilinear"}
    && (f.currentFilter == f.pendingFilter || {f.currentFilter, f.pendingFilter} == {"", "nearest"})
    && (forall v <- f.panning :: v == 0)
  }

  predicate Disabled(c: Crtc) {
    c.mode == 0 && c.x == 0 && c.y == 0 && c.width == 0 && c.height == 0 && c.rotation == 1 && c.outputs == []
  }

  // One of the four rotations, reflections allowed, all of it supported.
  predicate RotationOk(rotation: bv16, possible: bv16) {
    && (rotation & 15 == 1 || rotation & 15 == 2 || rotation & 15 == 4 || rotation & 15 == 8)
    && rotation & !63 == 0 && rotation & !possible == 0
  }

  predicate Sideways(rotation: bv16) { rotation & 10 != 0 }

  function Extent(mode: Mode, rotation: bv16): (int, int) {
    if Sideways(rotation) then (mode.height, mode.width) else (mode.width, mode.height)
  }

  predicate Inside(x: int, y: int, extent: (int, int), screen: Size) {
    0 <= x && 0 <= y && x + extent.0 <= screen.width && y + extent.1 <= screen.height
  }

  // This output may show this CRTC's mode.
  predicate Suits(o: Output, c: Crtc) {
    o.connection == 0 && c.id in o.crtcs && o.id in c.fixed.possibleOutputs && c.mode in o.modes
  }

  predicate Enabled(c: Crtc, modes: map<nat, Mode>, screen: Size) {
    && c.mode in modes && c.outputs != [] && RotationOk(c.rotation, c.fixed.possibleRotations)
    && Extent(modes[c.mode], c.rotation) == (c.width, c.height) && Inside(c.x, c.y, (c.width, c.height), screen)
  }

  predicate Assigned(c: Crtc, outputs: map<nat, Output>) {
    NoRepeats(c.outputs) && forall o <- c.outputs :: o in outputs && outputs[o].crtc == c.id && Suits(outputs[o], c)
  }

  predicate CrtcOk(c: Crtc, modes: map<nat, Mode>, outputs: map<nat, Output>, screen: Size) {
    PlainFilters(c.fixed) && (if c.mode == 0 then Disabled(c) else Enabled(c, modes, screen) && Assigned(c, outputs))
  }

  // Exactly representable: stated without any order of checking, and output by output.
  predicate Representable(s: Snapshot) {
    && s.schema == 1 && InRange(s.screen, s.range) && s.screen.mmWidth > 0 && s.screen.mmHeight > 0
    && DistinctModes(s.modes) && DistinctOutputs(s.outputs) && DistinctCrtcs(s.crtcs)
    && (s.primary == 0 || s.primary in OutputsById(s.outputs))
    && (forall a <- s.automatic :: a)
    && (forall i :: 0 <= i < |s.crtcs| ==> CrtcOk(s.crtcs[i], ModesById(s.modes), OutputsById(s.outputs), s.screen))
    && (forall o <- s.outputs :: o.crtc != 0 ==> exists i :: 0 <= i < |s.crtcs| && o.id in s.crtcs[i].outputs)
  }

  // ---- The same, written out ----

  // Not turned, or turned by a half; turned by one quarter or by three.
  predicate Upright(rotation: bv16) { rotation & 15 == 1 || rotation & 15 == 4 }

  predicate Lying(rotation: bv16) { rotation & 15 == 2 || rotation & 15 == 8 }

  lemma SidesSwap(mode: Mode, rotation: bv16)
    ensures Upright(rotation) ==> Extent(mode, rotation) == (mode.width, mode.height)
    ensures Lying(rotation) ==> Extent(mode, rotation) == (mode.height, mode.width)
  {}

  function Turn(p: (int, int)): (int, int) { (p.1, -p.0) }

  function Turned(p: (int, int), n: nat): (int, int) { if n == 0 then p else Turn(Turned(p, n - 1)) }

  function Abs(n: int): nat { if n < 0 then -n else n }

  // Rotation 1, 2, 4 or 8 turns the mode's rectangle by no, one, two or three quarters: what it
  // then covers, from the corner that stays to the opposite one, is the extent.
  lemma ExtentIsTurned(mode: Mode, rotation: bv16, n: nat)
    requires mode.width >= 0 && mode.height >= 0
    requires n < 4 && rotation & 15 == [1, 2, 4, 8][n]
    ensures var corner := Turned((mode.width, mode.height), n);
      Extent(mode, rotation) == (Abs(corner.0), Abs(corner.1))
  {
    SidesSwap(mode, rotation);
    assert Turned((mode.width, mode.height), 1) == (mode.height, -mode.width);
    assert Turned((mode.width, mode.height), 2) == (-mode.width, -mode.height);
  }

  // A transform that changes nothing: ones in the diagonal, as 16.16 fixed point numbers.
  predicate Unit(t: seq<int>) { |t| == 9 && forall i :: 0 <= i < 9 ==> t[i] == if i % 4 == 0 then 0x1_0000 else 0 }

  // Every condition on one CRTC, by the numbers.
  ghost predicate CrtcWrittenOut(c: Crtc, modes: map<nat, Mode>, outputs: map<nat, Output>, screen: Size) {
    && FiltersWrittenOut(c.fixed)
    && (c.mode == 0 ==> c.x == c.y == c.width == c.height == 0 && c.rotation == 1 && |c.outputs| == 0)
    && (c.mode != 0 ==> PlacedWrittenOut(c, modes, screen) && OutputsWrittenOut(c, outputs))
  }

  predicate FiltersWrittenOut(f: Fixed) {
    && Unit(f.currentTransform) && Unit(f.pendingTransform) && |f.currentParams| == |f.pendingParams| == 0
    && ((f.currentFilter == "" && f.pendingFilter == "") || (f.currentFilter == "" && f.pendingFilter == "nearest")
        || (f.currentFilter == "nearest" && f.pendingFilter == "")
        || (f.currentFilter == "nearest" && f.pendingFilter == "nearest")
        || (f.currentFilter == "bilinear" && f.pendingFilter == "bilinear"))
    && (forall i :: 0 <= i < |f.panning| ==> f.panning[i] == 0)
  }

  predicate PlacedWrittenOut(c: Crtc, modes: map<nat, Mode>, screen: Size) {
    && c.mode in modes && |c.outputs| > 0
    && (Upright(c.rotation) || Lying(c.rotation))
    && (Upright(c.rotation) ==> c.width == modes[c.mode].width && c.height == modes[c.mode].height)
    && (Lying(c.rotation) ==> c.width == modes[c.mode].height && c.height == modes[c.mode].width)
    && c.rotation < 64 && c.rotation & !c.fixed.possibleRotations == 0
    && 0 <= c.x <= screen.width - c.width && 0 <= c.y <= screen.height - c.height
  }

  ghost predicate OutputsWrittenOut(c: Crtc, outputs: map<nat, Output>) {
    && (forall i :: 0 <= i < |c.outputs| ==> c.outputs[i] in outputs && Shows(c, outputs[c.outputs[i]]))
    && (forall i, j :: 0 <= i < j < |c.outputs| ==> c.outputs[i] != c.outputs[j])
  }

  // A connected output that is assigned to this CRTC and can show its mode.
  predicate Shows(c: Crtc, o: Output) {
    o.crtc == c.id && o.connection == 0 && c.id in o.crtcs && o.id in c.fixed.possibleOutputs && c.mode in o.modes
  }

  lemma WrittenOut(c: Crtc, modes: map<nat, Mode>, outputs: map<nat, Output>, screen: Size)
    ensures CrtcOk(c, modes, outputs, screen) <==> CrtcWrittenOut(c, modes, outputs, screen)
  {
    hide PlainFilters, FiltersWrittenOut, Enabled, PlacedWrittenOut, Assigned, OutputsWrittenOut;
    Filters(c.fixed);
    if c.mode != 0 { Placed(c, modes, screen); }
    Outputs(c, outputs);
  }

  lemma Filters(f: Fixed)
    ensures PlainFilters(f) <==> FiltersWrittenOut(f)
  {
    hide Unit;
    UnitIsIdentity(f.currentTransform);
    UnitIsIdentity(f.pendingTransform);
    PairIs(f.currentFilter, f.pendingFilter);
    assert |f.currentParams| == 0 <==> f.currentParams == [];
    assert |f.pendingParams| == 0 <==> f.pendingParams == [];
    if forall v <- f.panning :: v == 0 {
      forall i | 0 <= i < |f.panning| ensures f.panning[i] == 0 { assert f.panning[i] in f.panning; }
    }
  }

  lemma PairIs(a: string, b: string)
    ensures {a, b} == {"", "nearest"} <==> (a == "" && b == "nearest") || (a == "nearest" && b == "")
  {
    assert a in {a, b} && b in {a, b};
    if {a, b} == {"", "nearest"} {
      assert "" in {a, b} && "nearest" in {a, b};
      assert |""| == 0 && |"nearest"| == 7;
    }
  }

  lemma Placed(c: Crtc, modes: map<nat, Mode>, screen: Size)
    ensures Enabled(c, modes, screen) <==> PlacedWrittenOut(c, modes, screen)
  {
    hide Extent, RotationOk, Upright, Lying;
    RotationMeans(c.rotation, c.fixed.possibleRotations);
    if c.mode in modes && (Upright(c.rotation) || Lying(c.rotation)) { SidesSwap(modes[c.mode], c.rotation); }
  }

  lemma RotationMeans(rotation: bv16, possible: bv16)
    ensures RotationOk(rotation, possible) <==>
      (Upright(rotation) || Lying(rotation)) && rotation < 64 && rotation & !possible == 0
  {
    LowSix(rotation);
  }

  lemma Outputs(c: Crtc, outputs: map<nat, Output>)
    ensures Assigned(c, outputs) <==> OutputsWrittenOut(c, outputs)
  {}

  lemma UnitIsIdentity(t: seq<int>)
    ensures Unit(t) <==> t == IDENTITY
  {}

  lemma LowSix(rotation: bv16)
    ensures rotation & !63 == 0 <==> rotation < 64
  {}

  // ---- _validate() ----

  method ValidFilters(f: Fixed) returns (ok: bool)
    ensures ok == PlainFilters(f)
  {
    if f.currentTransform != IDENTITY || f.currentParams != [] || f.currentFilter !in {"", "nearest", "bilinear"} ||
      f.pendingTransform != IDENTITY || f.pendingParams != [] || f.pendingFilter !in {"", "nearest", "bilinear"}
    {
      return false;
    }
    if f.currentFilter != f.pendingFilter && {f.currentFilter, f.pendingFilter} != {"", "nearest"} {
      return false;
    }
    ok := !(exists v <- f.panning :: v != 0);
  }

  predicate Keyed(outputs: map<nat, Output>) { forall o :: o in outputs ==> outputs[o].id == o }

  // The outputs of one enabled CRTC; taken collects them over all CRTCs.
  method ValidOutputs(c: Crtc, outputs: map<nat, Output>, taken: set<nat>) returns (ok: bool, taken': set<nat>)
    requires Keyed(outputs) && forall o <- taken :: o in outputs && outputs[o].crtc != c.id
    ensures ok == Assigned(c, outputs)
    ensures ok ==> taken' == taken + set o <- c.outputs
  {
    taken' := taken;
    var i := 0;
    while i < |c.outputs|
      invariant 0 <= i <= |c.outputs| && taken' == taken + (set o <- c.outputs[..i]) && NoRepeats(c.outputs[..i])
      invariant forall k :: 0 <= k < i ==>
        c.outputs[k] in outputs && outputs[c.outputs[k]].crtc == c.id && Suits(outputs[c.outputs[k]], c)
    {
      var oid := c.outputs[i];
      assert oid in c.outputs;
      if oid !in outputs {
        return false, taken';
      }
      var o := outputs[oid];
      if oid in taken' || o.crtc != c.id || o.connection != 0 || c.id !in o.crtcs || oid !in c.fixed.possibleOutputs
        || c.mode !in o.modes {
        if oid in c.outputs[..i] { Repeated(c.outputs, i); }
        return false, taken';
      }
      assert c.outputs[..i + 1] == c.outputs[..i] + [oid];
      taken', i := taken' + {oid}, i + 1;
    }
    assert c.outputs[..i] == c.outputs;
    ok := true;
  }

  lemma Repeated(os: seq<nat>, i: nat)
    requires i < |os| && os[i] in os[..i]
    ensures !NoRepeats(os)
  {
    var k :| 0 <= k < i && os[..i][k] == os[i];
    assert os[k] == os[i];
  }

  // Outputs that some CRTC of the list shows.
  ghost function Shown(cs: seq<Crtc>): set<nat> { set c <- cs, o <- c.outputs :: o }

  lemma ShownSnoc(cs: seq<Crtc>, c: Crtc)
    ensures Shown(cs + [c]) == Shown(cs) + set o <- c.outputs
  {
    forall o ensures o in Shown(cs + [c]) <==> o in Shown(cs) || o in c.outputs {
      if o in c.outputs { assert c in cs + [c]; }
      if o in Shown(cs) {
        var d :| d in cs && o in d.outputs;
        assert d in cs + [c];
      }
    }
  }

  method ValidCrtc(c: Crtc, modes: map<nat, Mode>, outputs: map<nat, Output>, screen: Size, taken: set<nat>)
    returns (ok: bool, taken': set<nat>)
    requires Keyed(outputs) && forall o <- taken :: o in outputs && outputs[o].crtc != c.id
    ensures ok == CrtcOk(c, modes, outputs, screen)
    ensures ok ==> taken' == taken + set o <- c.outputs
  {
    taken' := taken;
    ok := ValidFilters(c.fixed);
    if !ok {
      return;
    }
    if c.mode == 0 {
      ok := !(c.outputs != [] || c.x != 0 || c.y != 0 || c.width != 0 || c.height != 0 || c.rotation != 1);
      return;
    }
    ok := false;
    if c.mode !in modes || c.outputs == [] {
      return;
    }
    if !(c.rotation & 15 == 1 || c.rotation & 15 == 2 || c.rotation & 15 == 4 || c.rotation & 15 == 8) ||
      c.rotation & !63 != 0 || c.rotation & !c.fixed.possibleRotations != 0
    {
      return;
    }
    var w, h := modes[c.mode].width, modes[c.mode].height;
    if c.rotation & 10 != 0 { w, h := h, w; }
    if (w, h) != (c.width, c.height) || c.x < 0 || c.y < 0 || c.x + w > screen.width || c.y + h > screen.height {
      return;
    }
    ok, taken' := ValidOutputs(c, outputs, taken);
  }

  // A snapshot is accepted exactly if it is representable; the set of outputs taken so far is
  // only ever needed for repetitions within one CRTC.
  method Validate(s: Snapshot) returns (ok: bool)
    ensures ok == Representable(s)
    ensures ok ==> s.range.minWidth <= s.screen.width <= s.range.maxWidth
    ensures ok ==> s.range.minHeight <= s.screen.height <= s.range.maxHeight
    ensures ok ==> forall c <- s.crtcs :: c.mode != 0 && Upright(c.rotation) ==>
      exists m <- s.modes :: m.id == c.mode && c.width == m.width && c.height == m.height
    ensures ok ==> forall c <- s.crtcs :: c.mode != 0 && Lying(c.rotation) ==>
      exists m <- s.modes :: m.id == c.mode && c.width == m.height && c.height == m.width
  {
    hide Upright, Lying, CrtcOk;
    ok := false;
    if s.schema != 1 || !InRange(s.screen, s.range) || s.screen.mmWidth <= 0 || s.screen.mmHeight <= 0 {
      return;
    }
    var distinct := DistinctIds(s);
    if !distinct {
      return;
    }
    var modes, outputs := ModesById(s.modes), OutputsById(s.outputs);
    OutputsKeyed(s.outputs);
    if s.primary != 0 && s.primary !in outputs {
      return;
    }
    if exists a <- s.automatic :: !a {
      return;
    }
    var taken: set<nat> := {};
    var i := 0;
    while i < |s.crtcs|
      invariant 0 <= i <= |s.crtcs| && taken == Shown(s.crtcs[..i])
      invariant forall k :: 0 <= k < i ==> CrtcOk(s.crtcs[k], modes, outputs, s.screen)
    {
      TakenElsewhere(s.crtcs, i, modes, outputs, s.screen);
      ShownSnoc(s.crtcs[..i], s.crtcs[i]);
      assert s.crtcs[..i + 1] == s.crtcs[..i] + [s.crtcs[i]];
      var fine;
      fine, taken := ValidCrtc(s.crtcs[i], modes, outputs, s.screen, taken);
      if !fine {
        return;
      }
      i := i + 1;
    }
    assert s.crtcs[..i] == s.crtcs;
    ok := !(exists o <- s.outputs :: o.crtc != 0 && o.id !in taken);
    ShownBySome(s.crtcs);
    if ok { Sides(s); }
  }

  lemma Sides(s: Snapshot)
    requires Representable(s)
    ensures forall c <- s.crtcs :: c.mode != 0 && Upright(c.rotation) ==>
      exists m <- s.modes :: m.id == c.mode && c.width == m.width && c.height == m.height
    ensures forall c <- s.crtcs :: c.mode != 0 && Lying(c.rotation) ==>
      exists m <- s.modes :: m.id == c.mode && c.width == m.height && c.height == m.width
  {
    hide Upright, Lying, Extent, RotationOk;
    var modes := ModesById(s.modes);
    forall c <- s.crtcs | c.mode != 0
      ensures Upright(c.rotation) ==>
        exists m <- s.modes :: m.id == c.mode && c.width == m.width && c.height == m.height
      ensures Lying(c.rotation) ==>
        exists m <- s.modes :: m.id == c.mode && c.width == m.height && c.height == m.width
    {
      assert CrtcOk(c, modes, OutputsById(s.outputs), s.screen);
      SidesSwap(modes[c.mode], c.rotation);
      assert modes[c.mode] in s.modes;
    }
  }

  lemma OutputsKeyed(os: seq<Output>)
    requires DistinctOutputs(os)
    ensures Keyed(OutputsById(os))
  {}

  lemma ShownBySome(cs: seq<Crtc>)
    ensures forall o :: o in Shown(cs) <==> exists i :: 0 <= i < |cs| && o in cs[i].outputs
  {
    forall o ensures o in Shown(cs) <==> exists i :: 0 <= i < |cs| && o in cs[i].outputs {
      if o in Shown(cs) {
        var c :| c in cs && o in c.outputs;
        var i :| 0 <= i < |cs| && cs[i] == c;
      }
      if i :| 0 <= i < |cs| && o in cs[i].outputs { assert cs[i] in cs; }
    }
  }

  // What earlier CRTCs took belongs to them, so it is not this one's.
  lemma TakenElsewhere(cs: seq<Crtc>, i: nat, modes: map<nat, Mode>, outputs: map<nat, Output>, screen: Size)
    requires i < |cs| && DistinctCrtcs(cs) && forall k :: 0 <= k < i ==> CrtcOk(cs[k], modes, outputs, screen)
    ensures forall o <- Shown(cs[..i]) :: o in outputs && outputs[o].crtc != cs[i].id
  {
    ShownBySome(cs[..i]);
    forall o <- Shown(cs[..i]) ensures o in outputs && outputs[o].crtc != cs[i].id {
      var k :| 0 <= k < i && o in cs[..i][k].outputs;
      assert cs[k].id != cs[i].id;
    }
  }

  function ModeIds(ms: seq<Mode>): seq<nat> { seq(|ms|, i requires 0 <= i < |ms| => ms[i].id) }

  function OutputIds(os: seq<Output>): seq<nat> { seq(|os|, i requires 0 <= i < |os| => os[i].id) }

  function CrtcIds(cs: seq<Crtc>): seq<nat> { seq(|cs|, i requires 0 <= i < |cs| => cs[i].id) }

  lemma SameIds(s: Snapshot)
    ensures NoRepeats(ModeIds(s.modes)) ==> DistinctModes(s.modes)
    ensures NoRepeats(OutputIds(s.outputs)) ==> DistinctOutputs(s.outputs)
    ensures NoRepeats(CrtcIds(s.crtcs)) ==> DistinctCrtcs(s.crtcs)
  {
    var ms, os, cs := ModeIds(s.modes), OutputIds(s.outputs), CrtcIds(s.crtcs);
    forall i, j | NoRepeats(ms) && 0 <= i < j < |ms| ensures s.modes[i].id != s.modes[j].id { assert ms[i] != ms[j]; }
    forall i, j | NoRepeats(os) && 0 <= i < j < |os| ensures s.outputs[i].id != s.outputs[j].id {
      assert os[i] != os[j];
    }
    forall i, j | NoRepeats(cs) && 0 <= i < j < |cs| ensures s.crtcs[i].id != s.crtcs[j].id { assert cs[i] != cs[j]; }
  }

  // len(rows) != len(ids), for each kind of resource.
  method DistinctIds(s: Snapshot) returns (ok: bool)
    ensures ok == (DistinctModes(s.modes) && DistinctOutputs(s.outputs) && DistinctCrtcs(s.crtcs))
  {
    var ms, os, cs := ModeIds(s.modes), OutputIds(s.outputs), CrtcIds(s.crtcs);
    Counting(ms);
    Counting(os);
    Counting(cs);
    SameIds(s);
    ok := |Members(ms)| == |ms| && |Members(os)| == |os| && |Members(cs)| == |cs|;
  }

  // A list has as many members as places exactly if nothing in it repeats.
  lemma {:induction false} Counting(ids: seq<nat>)
    ensures |Members(ids)| <= |ids|
    ensures |Members(ids)| == |ids| <==> NoRepeats(ids)
  {
    if ids != [] {
      var before, last := ids[..|ids| - 1], ids[|ids| - 1];
      Counting(before);
      assert ids == before + [last];
      assert Members(ids) == Members(before) + {last};
      if last in before {
        Repeated(ids, |ids| - 1);
        assert Members(ids) == Members(before);
      } else {
        assert last !in Members(before);
        assert NoRepeats(ids) <==> NoRepeats(before) by {
          assert forall k :: 0 <= k < |before| ==> ids[k] == before[k] && ids[k] in before;
        }
      }
    }
  }
}
