// The subsurfaces of a bound window: their inventory when a snapshot is taken, and the walk
// from the surface under the pointer back to the window.
module Subsurfaces {
  import opened Options
  import opened Lists

  // A surface's role object; a subsurface role points at its subsurface.
  datatype Role = XdgShell | Subsurface(sub: nat) | Other

  // Sizes and offsets, finite or not, and how the buffer is scaled and turned.
  datatype Shape = Shape(values: seq<Option<real>>, scale: int, transform: int)

  datatype Surface = Surface(good: bool, mapped: bool, client: nat, role: Role, children: seq<nat>, shape: Shape)

  datatype Sub = Sub(good: bool, surface: Option<nat>, parent: Option<nat>, position: seq<Option<real>>, z: int)

  // What is alive. Weak references to anything else are expired.
  datatype Scene = Scene(surfaces: map<nat, Surface>, subs: map<nat, Sub>)

  // One captured edge of the forest.
  datatype Node = Node(surface: nat, parent: nat, sub: nat, position: seq<Option<real>>, shape: Shape, z: int,
    mapped: bool)

  // popups: the surfaces whose popup chains were captured.
  datatype Snapshot = Snapshot(root: Option<nat>, client: nat, popups: set<nat>, withdrawn: set<nat>, nodes: seq<Node>)

  const MAX_SURFACES: nat := 256
  const MAX_DEPTH: nat := 32

  predicate Bounded(values: seq<Option<real>>) {
    forall v <- values :: v.Some? && -1000000.0 <= v.value <= 1000000.0
  }

  // The leaf a child entry leads to, if the subsurface is alive and well attached to its parent.
  function Leaf(scene: Scene, client: nat, parent: nat, sub: nat): Option<nat> {
    if sub !in scene.subs then None
    else
      var s := scene.subs[sub];
      if !s.good || s.parent != Some(parent) || s.surface.None? || s.surface.value !in scene.surfaces then None
      else
        var leaf := scene.surfaces[s.surface.value];
        if leaf.good && leaf.client == client && leaf.role == Subsurface(sub) && Bounded(s.position)
          && Bounded(leaf.shape.values)
        then s.surface else None
  }

  function Captured(scene: Scene, parent: nat, sub: nat): Node
    requires sub in scene.subs && scene.subs[sub].surface.Some? && scene.subs[sub].surface.value in scene.surfaces
  {
    var s := scene.subs[sub];
    var leaf := scene.surfaces[s.surface.value];
    Node(s.surface.value, parent, sub, s.position, leaf.shape, s.z, leaf.mapped)
  }

  // Every number is there and within a million either way.
  ghost predicate Finite(values: seq<Option<real>>) {
    forall i :: 0 <= i < |values| ==> values[i].Some? && -1000000.0 <= values[i].value && values[i].value <= 1000000.0
  }

  // A child leads to the surface that names it as its role and that it names as its own; both are
  // alive, the parent is the one it hangs under, and the geometry is finite. All of this is kept.
  lemma LeafIs(scene: Scene, client: nat, parent: nat, sub: nat, leaf: nat)
    ensures Leaf(scene, client, parent, sub) == Some(leaf) <==>
      && sub in scene.subs && leaf in scene.surfaces
      && scene.subs[sub].good && scene.subs[sub].parent == Some(parent) && scene.subs[sub].surface == Some(leaf)
      && scene.surfaces[leaf].good && scene.surfaces[leaf].client == client
      && scene.surfaces[leaf].role.Subsurface? && scene.surfaces[leaf].role.sub == sub
      && Finite(scene.subs[sub].position) && Finite(scene.surfaces[leaf].shape.values)
    ensures Leaf(scene, client, parent, sub) == Some(leaf) ==>
      var node := Captured(scene, parent, sub);
      && node.surface == leaf && node.parent == parent && node.sub == sub
      && node.position == scene.subs[sub].position && node.z == scene.subs[sub].z
      && node.shape == scene.surfaces[leaf].shape && node.mapped == scene.surfaces[leaf].mapped
  {
    hide Bounded, Finite;
    if sub in scene.subs { BoundedIsFinite(scene.subs[sub].position); }
    if leaf in scene.surfaces { BoundedIsFinite(scene.surfaces[leaf].shape.values); }
  }

  lemma BoundedIsFinite(values: seq<Option<real>>)
    ensures Bounded(values) <==> Finite(values)
  {
    if Bounded(values) {
      forall i | 0 <= i < |values|
        ensures values[i].Some? && -1000000.0 <= values[i].value && values[i].value <= 1000000.0
      {
        assert values[i] in values;
      }
    }
  }

  predicate Edge(scene: Scene, client: nat, parent: nat, leaf: nat) {
    parent in scene.surfaces && exists sub <- scene.surfaces[parent].children ::
      Leaf(scene, client, parent, sub) == Some(leaf)
  }

  // A way down from a root, edge by edge.
  predicate Path(scene: Scene, client: nat, roots: set<nat>, p: seq<nat>) {
    && p != [] && p[0] in roots
    && forall i :: 0 < i < |p| ==> Edge(scene, client, p[i - 1], p[i])
  }

  ghost predicate Reachable(scene: Scene, client: nat, roots: set<nat>, s: nat) {
    exists p :: Path(scene, client, roots, p) && p[|p| - 1] == s
  }

  // Anything closed under edges that holds the roots holds all that is reachable.
  lemma {:induction false} ClosedHolds(scene: Scene, client: nat, roots: set<nat>, all: set<nat>, p: seq<nat>)
    requires roots <= all && Path(scene, client, roots, p)
    requires forall a, b :: a in all && Edge(scene, client, a, b) ==> b in all
    ensures p[|p| - 1] in all
    decreases |p|
  {
    if |p| > 1 {
      var before := p[..|p| - 1];
      assert forall i :: 0 < i < |before| ==> Edge(scene, client, before[i - 1], before[i]);
      ClosedHolds(scene, client, roots, all, before);
      assert Edge(scene, client, p[|p| - 2], p[|p| - 1]);
    }
  }

  // ---- subsurfaceInventory() ----

  datatype Pending = Pending(surface: nat, depth: nat)

  function SurfacesOf(pending: seq<Pending>): seq<nat> {
    seq(|pending|, i requires 0 <= i < |pending| => pending[i].surface)
  }

  // The pending list is the roots, and then the leaf of every captured node, one level below a
  // parent that comes before it.
  predicate Queued(scene: Scene, client: nat, roots: nat, pending: seq<Pending>, nodes: seq<Node>) {
    && |pending| == roots + |nodes| && |nodes| <= MAX_SURFACES
    && (forall i :: 0 <= i < roots ==> pending[i].depth == 0)
    && (forall k :: 0 <= k < |nodes| ==> Placed(scene, client, pending, roots + k, nodes[k]))
  }

  // This place holds the leaf of this node.
  predicate Placed(scene: Scene, client: nat, pending: seq<Pending>, i: nat, node: Node)
    requires i < |pending|
  {
    pending[i].surface == node.surface && pending[i].depth <= MAX_DEPTH && HasParent(scene, client, pending, i, node)
  }

  predicate HasParent(scene: Scene, client: nat, pending: seq<Pending>, i: nat, node: Node)
    requires i < |pending|
  {
    exists j :: 0 <= j < i && Below(scene, client, pending[j], pending[i], node)
  }

  predicate Below(scene: Scene, client: nat, parent: Pending, leaf: Pending, node: Node) {
    && parent.surface in scene.surfaces && node.sub in scene.surfaces[parent.surface].children
    && Leaf(scene, client, parent.surface, node.sub) == Some(leaf.surface) && leaf.depth == parent.depth + 1
    && node == Captured(scene, parent.surface, node.sub)
  }

  // The first n children of the surface at place i are captured.
  predicate Expanded(scene: Scene, client: nat, roots: seq<nat>, pending: seq<Pending>, i: nat, n: nat)
    requires i < |pending|
  {
    && pending[i].surface in scene.surfaces && n <= |scene.surfaces[pending[i].surface].children|
    && (forall c :: 0 <= c < n ==> Holds(scene, client, pending, i, c))
    && (NoRepeats(SurfacesOf(pending)) ==>
      Unrepeated(scene, client, roots, pending[i].surface, scene.surfaces[pending[i].surface].children[..n]))
  }

  // Child c of the surface at place i leads to a leaf in the list.
  predicate Holds(scene: Scene, client: nat, pending: seq<Pending>, i: nat, c: nat)
    requires i < |pending| && pending[i].surface in scene.surfaces && c < |scene.surfaces[pending[i].surface].children|
  {
    var leaf := Leaf(scene, client, pending[i].surface, scene.surfaces[pending[i].surface].children[c]);
    leaf.Some? && leaf.value in SurfacesOf(pending)
  }

  // No child is listed twice, and none is a root.
  predicate Unrepeated(scene: Scene, client: nat, roots: seq<nat>, parent: nat, children: seq<nat>) {
    && NoRepeats(children)
    && forall sub <- children :: forall r <- roots :: Leaf(scene, client, parent, sub) != Some(r)
  }

  predicate Done(scene: Scene, client: nat, roots: seq<nat>, pending: seq<Pending>, i: nat)
    requires i < |pending|
  {
    && pending[i].surface in scene.surfaces && Fit(scene.surfaces[pending[i].surface], client)
    && Expanded(scene, client, roots, pending, i, |scene.surfaces[pending[i].surface].children|)
  }

  predicate Fit(surface: Surface, client: nat) {
    surface.good && surface.client == client && |surface.children| <= 256
  }

  lemma MoreExpanded(scene: Scene, client: nat, roots: seq<nat>, pending: seq<Pending>, more: Pending, i: nat, n: nat)
    requires i < |pending| && Expanded(scene, client, roots, pending, i, n)
    ensures Expanded(scene, client, roots, pending + [more], i, n)
  {
    hide Unrepeated;
    Longer(pending, more);
    forall c | 0 <= c < n ensures Holds(scene, client, pending + [more], i, c) {
      assert Holds(scene, client, pending, i, c);
    }
    if NoRepeats(SurfacesOf(pending + [more])) { Shorter(SurfacesOf(pending), more.surface); }
  }

  lemma MoreDone(scene: Scene, client: nat, roots: seq<nat>, pending: seq<Pending>, more: Pending, i: nat)
    requires i < |pending| && Done(scene, client, roots, pending, i)
    ensures Done(scene, client, roots, pending + [more], i)
  {
    hide Expanded;
    MoreExpanded(scene, client, roots, pending, more, i, |scene.surfaces[pending[i].surface].children|);
  }

  lemma Shorter(s: seq<nat>, x: nat)
    requires NoRepeats(s + [x])
    ensures NoRepeats(s) && x !in s
  {
    forall i, j | 0 <= i < j < |s| ensures s[i] != s[j] {
      assert (s + [x])[i] != (s + [x])[j];
    }
    forall i | 0 <= i < |s| ensures s[i] != x {
      assert (s + [x])[i] != (s + [x])[|s|];
    }
  }

  lemma Longer(pending: seq<Pending>, more: Pending)
    ensures SurfacesOf(pending + [more]) == SurfacesOf(pending) + [more.surface]
  {}

  // The next child is in the list now. Where it is the second to lead there, the list repeats.
  lemma OneMoreChild(scene: Scene, client: nat, roots: seq<nat>, pending: seq<Pending>, next: Pending, i: nat, n: nat)
    requires i < |pending| && Expanded(scene, client, roots, pending, i, n)
      && n < |scene.surfaces[pending[i].surface].children|
    requires Leaf(scene, client, pending[i].surface, scene.surfaces[pending[i].surface].children[n]) ==
      Some(next.surface)
    requires |roots| <= |pending| && SurfacesOf(pending)[..|roots|] == roots
    ensures Expanded(scene, client, roots, pending + [next], i, n + 1)
  {
    var p, parent := pending + [next], pending[i].surface;
    var children := scene.surfaces[parent].children;
    Longer(pending, next);
    forall c | 0 <= c < n + 1 ensures Holds(scene, client, p, i, c) {
      if c < n {
        assert Holds(scene, client, pending, i, c);
      } else {
        assert SurfacesOf(p)[|pending|] == next.surface;
      }
    }
    if NoRepeats(SurfacesOf(p)) {
      Shorter(SurfacesOf(pending), next.surface);
      forall c | 0 <= c < n ensures children[c] != children[n] {
        assert Holds(scene, client, pending, i, c);
      }
      assert forall r <- roots :: r in SurfacesOf(pending);
      assert children[..n + 1] == children[..n] + [children[n]];
      assert Unrepeated(scene, client, roots, parent, children[..n + 1]);
    }
  }

  // ---- which graphs are refused ----

  // What is reachable is fit, its children lead to leaves, none is listed twice or is a root;
  // nothing lies too deep, and there is not too much of it.
  ghost predicate Proper(scene: Scene, client: nat, roots: seq<nat>) {
    && NoRepeats(roots)
    && (forall s :: Reachable(scene, client, Members(roots), s) ==> Sound(scene, client, roots, s))
    && (forall p :: Path(scene, client, Members(roots), p) ==> |p| <= 33)
    && |BelowRoots(scene, client, roots)| <= 256
  }

  predicate Sound(scene: Scene, client: nat, roots: seq<nat>, s: nat) {
    && s in scene.surfaces && Fit(scene.surfaces[s], client)
    && Unrepeated(scene, client, roots, s, scene.surfaces[s].children)
    && forall sub <- scene.surfaces[s].children :: Leaf(scene, client, s, sub).Some?
  }

  ghost function BelowRoots(scene: Scene, client: nat, roots: seq<nat>): set<nat> {
    set s | s in scene.surfaces && s !in roots && Reachable(scene, client, Members(roots), s)
  }

  // Nothing is in the list twice, and the nodes come from the parents before place i, and from
  // the first n children of the one at place i.
  predicate Tidy(scene: Scene, pending: seq<Pending>, nodes: seq<Node>, i: nat, n: nat)
    requires i < |pending|
  {
    && NoRepeats(SurfacesOf(pending))
    && pending[i].surface in scene.surfaces && n <= |scene.surfaces[pending[i].surface].children|
    && forall node <- nodes ::
      From(pending, node, i, pending[i].surface, scene.surfaces[pending[i].surface].children[..n])
  }

  predicate From(pending: seq<Pending>, node: Node, i: nat, parent: nat, children: seq<nat>)
    requires i <= |pending|
  {
    node.parent in SurfacesOf(pending)[..i] || (node.parent == parent && node.sub in children)
  }

  predicate Before(pending: seq<Pending>, nodes: seq<Node>, i: nat)
    requires i <= |pending|
  {
    NoRepeats(SurfacesOf(pending)) && forall node <- nodes :: node.parent in SurfacesOf(pending)[..i]
  }

  // In a proper graph a leaf is new, because it knows its parent and its subsurface.
  lemma NewLeaf(scene: Scene, client: nat, roots: seq<nat>, pending: seq<Pending>, nodes: seq<Node>, i: nat, n: nat,
                leaf: nat)
    requires Queued(scene, client, |roots|, pending, nodes) && SurfacesOf(pending)[..|roots|] == roots && i < |pending|
    requires Tidy(scene, pending, nodes, i, n) && Sound(scene, client, roots, pending[i].surface)
    requires n < |scene.surfaces[pending[i].surface].children|
    requires Leaf(scene, client, pending[i].surface, scene.surfaces[pending[i].surface].children[n]) == Some(leaf)
    ensures leaf !in SurfacesOf(pending) && NoRepeats(SurfacesOf(pending) + [leaf])
  {
    var parent := pending[i].surface;
    var children := scene.surfaces[parent].children;
    assert SurfacesOf(pending)[i] == parent && children[n] !in children[..n];
    forall j | 0 <= j < |pending| ensures SurfacesOf(pending)[j] != leaf {
      if j < |roots| {
        assert roots[j] == SurfacesOf(pending)[j] && children[n] in children;
      } else {
        KnowsItsEdge(scene, client, pending, nodes, j, |roots|);
        var node := nodes[j - |roots|];
        assert node in nodes && From(pending, node, i, parent, children[..n]);
      }
    }
  }

  lemma KnowsItsEdge(scene: Scene, client: nat, pending: seq<Pending>, nodes: seq<Node>, j: nat, roots: nat)
    requires Queued(scene, client, roots, pending, nodes) && roots <= j < |pending|
    ensures var node := nodes[j - roots];
      && node.surface == pending[j].surface && Leaf(scene, client, node.parent, node.sub) == Some(node.surface)
  {
    assert Placed(scene, client, pending, roots + (j - roots), nodes[j - roots]);
  }

  lemma StillTidy(scene: Scene, pending: seq<Pending>, nodes: seq<Node>, i: nat, n: nat, next: Pending, node: Node)
    requires i < |pending| && Tidy(scene, pending, nodes, i, n) && n < |scene.surfaces[pending[i].surface].children|
    requires NoRepeats(SurfacesOf(pending) + [next.surface])
    requires node.parent == pending[i].surface && node.sub == scene.surfaces[pending[i].surface].children[n]
    ensures Tidy(scene, pending + [next], nodes + [node], i, n + 1)
  {
    var p, parent := pending + [next], pending[i].surface;
    var children := scene.surfaces[parent].children;
    Longer(pending, next);
    assert SurfacesOf(p)[..i] == SurfacesOf(pending)[..i];
    forall m <- nodes + [node] ensures From(p, m, i, parent, children[..n + 1]) {
      if m in nodes {
        assert From(pending, m, i, parent, children[..n]);
        assert forall sub <- children[..n] :: sub in children[..n + 1];
      } else {
        assert children[..n + 1][n] == node.sub;
      }
    }
  }

  // Everything queued is reachable, by a way as long as its depth, because each leaf hangs below
  // an earlier entry.
  lemma {:induction false} QueuedPath(scene: Scene, client: nat, roots: seq<nat>, pending: seq<Pending>,
                                      nodes: seq<Node>, i: nat) returns (p: seq<nat>)
    requires Queued(scene, client, |roots|, pending, nodes) && SurfacesOf(pending)[..|roots|] == roots && i < |pending|
    ensures Path(scene, client, Members(roots), p) && p[|p| - 1] == pending[i].surface && |p| == pending[i].depth + 1
    ensures Reachable(scene, client, Members(roots), pending[i].surface)
    decreases i
  {
    if i < |roots| {
      assert SurfacesOf(pending)[..|roots|][i] == pending[i].surface;
      p := [pending[i].surface];
    } else {
      var k := i - |roots|;
      assert Placed(scene, client, pending, |roots| + k, nodes[k]);
      var j :| 0 <= j < i && Below(scene, client, pending[j], pending[i], nodes[k]);
      p := QueuedPath(scene, client, roots, pending, nodes, j);
      p := p + [pending[i].surface];
    }
  }

  // In a proper graph the next child can be captured.
  lemma Room(scene: Scene, client: nat, roots: seq<nat>, pending: seq<Pending>, nodes: seq<Node>, i: nat, n: nat)
    requires Queued(scene, client, |roots|, pending, nodes) && SurfacesOf(pending)[..|roots|] == roots && i < |pending|
    requires Proper(scene, client, roots) && Tidy(scene, pending, nodes, i, n)
      && n < |scene.surfaces[pending[i].surface].children|
    ensures Sound(scene, client, roots, pending[i].surface) && pending[i].depth < MAX_DEPTH && |nodes| < MAX_SURFACES
  {
    hide Sound, Path, Leaf;
    var p := QueuedPath(scene, client, roots, pending, nodes, i);
    SoundInScene(scene, client, roots, pending[i].surface);
    var leaf := SoundLeaf(scene, client, roots, pending[i].surface, n);
    Onward(scene, client, Members(roots), p, leaf);
    NewLeaf(scene, client, roots, pending, nodes, i, n, leaf);
    Enough(scene, client, roots, pending, nodes, leaf);
  }

  lemma Onward(scene: Scene, client: nat, roots: set<nat>, p: seq<nat>, leaf: nat)
    requires Path(scene, client, roots, p) && Edge(scene, client, p[|p| - 1], leaf)
    ensures Path(scene, client, roots, p + [leaf]) && Reachable(scene, client, roots, leaf)
  {
    var q := p + [leaf];
    assert Path(scene, client, roots, q) && q[|q| - 1] == leaf;
  }

  // The list and another leaf are below the roots, so there is room for the leaf.
  lemma Enough(scene: Scene, client: nat, roots: seq<nat>, pending: seq<Pending>, nodes: seq<Node>, leaf: nat)
    requires Queued(scene, client, |roots|, pending, nodes) && SurfacesOf(pending)[..|roots|] == roots
    requires Proper(scene, client, roots) && NoRepeats(SurfacesOf(pending) + [leaf])
    requires Reachable(scene, client, Members(roots), leaf)
    ensures |nodes| < MAX_SURFACES
  {
    hide Sound, Path, Leaf, Placed;
    var rest := SurfacesOf(pending)[|roots|..] + [leaf];
    assert SurfacesOf(pending) + [leaf] == roots + rest;
    NonRoots(roots, rest);
    forall x <- rest ensures x in BelowRoots(scene, client, roots) {
      if x != leaf {
        var j :| |roots| <= j < |pending| && SurfacesOf(pending)[j] == x;
        var _ := QueuedPath(scene, client, roots, pending, nodes, j);
      }
      SoundInScene(scene, client, roots, x);
    }
    AtLeast(rest, BelowRoots(scene, client, roots));
  }

  lemma SoundInScene(scene: Scene, client: nat, roots: seq<nat>, s: nat)
    requires Proper(scene, client, roots) && Reachable(scene, client, Members(roots), s)
    ensures s in scene.surfaces && Sound(scene, client, roots, s)
  {}

  lemma SoundLeaf(scene: Scene, client: nat, roots: seq<nat>, s: nat, n: nat) returns (leaf: nat)
    requires Sound(scene, client, roots, s) && n < |scene.surfaces[s].children|
    ensures Leaf(scene, client, s, scene.surfaces[s].children[n]) == Some(leaf) && Edge(scene, client, s, leaf)
  {
    leaf := Leaf(scene, client, s, scene.surfaces[s].children[n]).value;
  }

  lemma NonRoots(roots: seq<nat>, rest: seq<nat>)
    requires NoRepeats(roots + rest)
    ensures NoRepeats(rest) && forall x <- rest :: x !in roots
  {
    var all := roots + rest;
    forall i, j | 0 <= i < j < |rest| ensures rest[i] != rest[j] {
      assert all[|roots| + i] != all[|roots| + j];
    }
    forall i, j | 0 <= i < |roots| && 0 <= j < |rest| ensures roots[i] != rest[j] {
      assert all[i] != all[|roots| + j];
    }
  }

  lemma {:induction false} AtLeast(s: seq<nat>, all: set<nat>)
    requires NoRepeats(s) && forall x <- s :: x in all
    ensures |s| <= |all|
  {
    if s != [] {
      assert forall x <- s[1..] :: x != s[0];
      AtLeast(s[1..], all - {s[0]});
    }
  }

  lemma {:induction false} AtMost(s: seq<nat>, some: set<nat>)
    requires forall x <- some :: x in s
    ensures |some| <= |s|
  {
    if s == [] {
      assert some == {};
    } else {
      AtMost(s[1..], some - {s[0]});
    }
  }

  // A graph with a cycle within reach is not proper: going round makes the way too long.
  lemma CycleIsImproper(scene: Scene, client: nat, roots: seq<nat>, p: seq<nat>, i: nat, j: nat)
    requires Path(scene, client, Members(roots), p) && i < j < |p| && p[i] == p[j]
    ensures !Proper(scene, client, roots)
  {
    var _ := Round(scene, client, Members(roots), p, i, j, MAX_DEPTH + 2);
  }

  lemma {:induction false} Round(scene: Scene, client: nat, roots: set<nat>, p: seq<nat>, i: nat, j: nat, n: nat)
    returns (q: seq<nat>)
    requires Path(scene, client, roots, p) && i < j < |p| && p[i] == p[j]
    ensures Path(scene, client, roots, q) && |q| >= n && q[|q| - 1] == p[i]
  {
    if n == 0 {
      q := p[..i + 1];
    } else {
      q := Round(scene, client, roots, p, i, j, n - 1);
      var m := |q|;
      q := q + p[i + 1..j + 1];
      forall k | 0 < k < |q| ensures Edge(scene, client, q[k - 1], q[k]) {
        if k >= m { assert q[k] == p[i + 1 + (k - m)] && q[k - 1] == p[i + (k - m)]; }
      }
    }
  }

  // Whatever is captured completely is proper.
  lemma ForestIsProper(scene: Scene, client: nat, roots: seq<nat>, pending: seq<Pending>, nodes: seq<Node>)
    requires Forest(scene, client, roots, pending, nodes)
    ensures Proper(scene, client, roots)
  {
    forall i, j | 0 <= i < j < |roots| ensures roots[i] != roots[j] {
      assert roots[i] == SurfacesOf(pending)[i] && roots[j] == SurfacesOf(pending)[j];
    }
    forall s | Reachable(scene, client, Members(roots), s) ensures Sound(scene, client, roots, s) {
      var i :| 0 <= i < |pending| && SurfacesOf(pending)[i] == s;
      DoneIsSound(scene, client, roots, pending, i);
    }
    forall p | Path(scene, client, Members(roots), p) ensures |p| <= MAX_DEPTH + 1 {
      var _ := DepthOf(scene, client, roots, pending, nodes, p);
    }
    forall x <- BelowRoots(scene, client, roots) ensures x in SurfacesOf(pending)[|roots|..] {
      assert SurfacesOf(pending) == roots + SurfacesOf(pending)[|roots|..];
    }
    AtMost(SurfacesOf(pending)[|roots|..], BelowRoots(scene, client, roots));
  }

  lemma DoneIsSound(scene: Scene, client: nat, roots: seq<nat>, pending: seq<Pending>, i: nat)
    requires i < |pending| && NoRepeats(SurfacesOf(pending)) && Done(scene, client, roots, pending, i)
    ensures Sound(scene, client, roots, pending[i].surface)
  {
    var children := scene.surfaces[pending[i].surface].children;
    assert children[..|children|] == children;
    forall c | 0 <= c < |children| ensures Leaf(scene, client, pending[i].surface, children[c]).Some? {
      assert Holds(scene, client, pending, i, c);
    }
  }

  // In a complete list the place of a surface has the length of every way to it.
  lemma {:induction false} DepthOf(scene: Scene, client: nat, roots: seq<nat>, pending: seq<Pending>,
                                   nodes: seq<Node>, p: seq<nat>) returns (i: nat)
    requires Forest(scene, client, roots, pending, nodes) && Path(scene, client, Members(roots), p)
    ensures i < |pending| && pending[i].surface == p[|p| - 1] && |p| == pending[i].depth + 1
      && pending[i].depth <= MAX_DEPTH
    decreases |p|
  {
    if |p| == 1 {
      i :| 0 <= i < |roots| && roots[i] == p[0];
      assert SurfacesOf(pending)[..|roots|][i] == pending[i].surface;
    } else {
      var before, s := p[..|p| - 1], p[|p| - 1];
      assert forall i :: 0 < i < |before| ==> Edge(scene, client, before[i - 1], before[i]);
      var above := DepthOf(scene, client, roots, pending, nodes, before);
      assert Edge(scene, client, p[|p| - 2], p[|p| - 1]);
      i := BelowIt(scene, client, roots, pending, nodes, above, s);
    }
  }

  lemma BelowIt(scene: Scene, client: nat, roots: seq<nat>, pending: seq<Pending>, nodes: seq<Node>, above: nat,
                s: nat) returns (i: nat)
    requires Forest(scene, client, roots, pending, nodes) && above < |pending|
      && Edge(scene, client, pending[above].surface, s)
    ensures i < |pending| && pending[i].surface == s && pending[i].depth == pending[above].depth + 1 <= MAX_DEPTH
  {
    var parent := pending[above].surface;
    assert SurfacesOf(pending)[above] == parent;
    assert Done(scene, client, roots, pending, above);
    DoneIsSound(scene, client, roots, pending, above);
    var sub :| sub in scene.surfaces[parent].children && Leaf(scene, client, parent, sub) == Some(s);
    var c :| 0 <= c < |scene.surfaces[parent].children| && scene.surfaces[parent].children[c] == sub;
    assert Holds(scene, client, pending, above, c);
    i :| 0 <= i < |pending| && SurfacesOf(pending)[i] == s;
    assert s !in SurfacesOf(pending)[..|roots|];
    var k := i - |roots|;
    assert Placed(scene, client, pending, |roots| + k, nodes[k]);
    var j :| 0 <= j < i && Below(scene, client, pending[j], pending[i], nodes[k]);
    assert SurfacesOf(pending)[j] == parent;
  }

  // One child of the surface at place i: captured, and queued one level below it. In a proper
  // graph that always succeeds.
  method Capture(scene: Scene, client: nat, ghost roots: seq<nat>, pending: seq<Pending>, nodes: seq<Node>, i: nat,
                 n: nat)
    returns (ok: bool, pending': seq<Pending>, nodes': seq<Node>)
    requires Queued(scene, client, |roots|, pending, nodes) && SurfacesOf(pending)[..|roots|] == roots && i < |pending|
    requires Expanded(scene, client, roots, pending, i, n) && n < |scene.surfaces[pending[i].surface].children|
    requires forall j :: 0 <= j < i ==> Done(scene, client, roots, pending, j)
    requires Proper(scene, client, roots) ==> Tidy(scene, pending, nodes, i, n)
    ensures ok ==> Queued(scene, client, |roots|, pending', nodes') && |nodes'| == |nodes| + 1 && pending <= pending'
    ensures ok ==>
      Expanded(scene, client, roots, pending', i, n + 1)
        && forall j :: 0 <= j < i ==> Done(scene, client, roots, pending', j)
    ensures Proper(scene, client, roots) ==> ok && Tidy(scene, pending', nodes', i, n + 1)
  {
    hide Proper, Done, Unrepeated;
    ok, pending', nodes' := false, pending, nodes;
    var parent := pending[i];
    var sub := scene.surfaces[parent.surface].children[n];
    var leaf := Leaf(scene, client, parent.surface, sub);
    ghost var proper := Proper(scene, client, roots);
    if proper {
      Room(scene, client, roots, pending, nodes, i, n);
    }
    if leaf.None? || parent.depth >= MAX_DEPTH || |nodes| >= MAX_SURFACES {
      return;
    }
    var node := Captured(scene, parent.surface, sub);
    var next := Pending(leaf.value, parent.depth + 1);
    nodes', pending' := nodes + [node], pending + [next];
    assert Below(scene, client, pending[i], next, node);
    StillQueued(scene, client, |roots|, pending, nodes, i, next, node);
    OneMoreChild(scene, client, roots, pending, next, i, n);
    forall j | 0 <= j < i ensures Done(scene, client, roots, pending', j) {
      MoreDone(scene, client, roots, pending, next, j);
    }
    if proper {
      NewLeaf(scene, client, roots, pending, nodes, i, n, leaf.value);
      StillTidy(scene, pending, nodes, i, n, next, node);
    }
    ok := true;
  }

  lemma StillQueued(scene: Scene, client: nat, roots: nat, pending: seq<Pending>, nodes: seq<Node>, i: nat,
                    next: Pending, node: Node)
    requires Queued(scene, client, roots, pending, nodes) && i < |pending| && |nodes| < MAX_SURFACES
      && next.depth <= MAX_DEPTH
    requires Below(scene, client, pending[i], next, node) && next.surface == node.surface
    ensures Queued(scene, client, roots, pending + [next], nodes + [node])
  {
    hide Below;
    var p, ns := pending + [next], nodes + [node];
    forall k | 0 <= k < |ns| ensures Placed(scene, client, p, roots + k, ns[k]) {
      if k < |nodes| {
        assert Placed(scene, client, pending, roots + k, nodes[k]);
        var j :| 0 <= j < roots + k && Below(scene, client, pending[j], pending[roots + k], nodes[k]);
        assert p[j] == pending[j];
      } else {
        assert p[i] == pending[i] && Below(scene, client, p[i], p[roots + k], ns[k]);
      }
    }
  }

  // The window's surface, and the popups among the candidates whose chains still stand.
  function RootsOf(root: nat, popups: set<nat>, candidates: seq<nat>, current: set<nat>): seq<nat> {
    if candidates == [] then [root]
    else RootsOf(root, popups, candidates[..|candidates| - 1], current)
         + if candidates[|candidates| - 1] in current && candidates[|candidates| - 1] in popups
           then [candidates[|candidates| - 1]] else []
  }

  // The window comes first, and after it every candidate that is captured and current.
  lemma {:induction false} RootsMean(root: nat, popups: set<nat>, candidates: seq<nat>, current: set<nat>)
    ensures var r := RootsOf(root, popups, candidates, current);
      && 1 <= |r| <= 1 + |candidates| && r[0] == root
      && (forall s :: s in r <==> s == root || (s in candidates && s in popups && s in current))
    decreases |candidates|
  {
    if candidates != [] {
      var (before, last) := (candidates[..|candidates| - 1], candidates[|candidates| - 1]);
      RootsMean(root, popups, before, current);
      assert candidates == before + [last];
    }
  }

  function RootsPending(roots: seq<nat>): seq<Pending> {
    seq(|roots|, i requires 0 <= i < |roots| => Pending(roots[i], 0))
  }

  // The captured forest: all that is reachable from the roots, and nothing twice.
  ghost predicate Forest(scene: Scene, client: nat, roots: seq<nat>, pending: seq<Pending>, nodes: seq<Node>) {
    && Queued(scene, client, |roots|, pending, nodes)
    && SurfacesOf(pending)[..|roots|] == roots && NoRepeats(SurfacesOf(pending))
    && (forall s :: s in SurfacesOf(pending) <==> Reachable(scene, client, Members(roots), s))
    && (forall i :: 0 <= i < |pending| ==> Done(scene, client, roots, pending, i))
  }

  function Leaves(nodes: seq<Node>): seq<nat> { seq(|nodes|, k requires 0 <= k < |nodes| => nodes[k].surface) }

  // The nodes alone: with the roots they are all that is reachable, each surface once, and each
  // node is the edge it was captured from.
  ghost predicate Captures(scene: Scene, client: nat, roots: seq<nat>, nodes: seq<Node>) {
    && NoRepeats(roots + Leaves(nodes))
    && (forall s :: s in roots + Leaves(nodes) <==> Reachable(scene, client, Members(roots), s))
    && (forall k :: 0 <= k < |nodes| ==>
          && Leaf(scene, client, nodes[k].parent, nodes[k].sub) == Some(nodes[k].surface)
          && nodes[k] == Captured(scene, nodes[k].parent, nodes[k].sub))
  }

  lemma ForestCaptures(scene: Scene, client: nat, roots: seq<nat>, pending: seq<Pending>, nodes: seq<Node>)
    requires Forest(scene, client, roots, pending, nodes)
    ensures |nodes| <= MAX_SURFACES && Captures(scene, client, roots, nodes)
  {
    forall k | 0 <= k < |nodes|
      ensures SurfacesOf(pending)[|roots| + k] == nodes[k].surface
      ensures Leaf(scene, client, nodes[k].parent, nodes[k].sub) == Some(nodes[k].surface)
      ensures nodes[k] == Captured(scene, nodes[k].parent, nodes[k].sub)
    {
      assert Placed(scene, client, pending, |roots| + k, nodes[k]);
    }
    assert SurfacesOf(pending) == SurfacesOf(pending)[..|roots|] + Leaves(nodes);
  }

  // subsurfaceInventory(). current: the surfaces whose popup chain is valid now. The list grows
  // while it is walked, on a graph that may well have cycles; the size bound ends the walk. It
  // succeeds exactly on proper graphs, and then returns exactly the forest.
  method Inventory(scene: Scene, b: Snapshot, candidates: seq<nat>, current: set<nat>)
    returns (ok: bool, nodes: seq<Node>, ghost pending: seq<Pending>)
    ensures ok ==>
      b.root.Some? && Forest(scene, b.client, RootsOf(b.root.value, b.popups, candidates, current), pending, nodes)
    ensures ok ==>
      |nodes| <= 256 && Captures(scene, b.client, RootsOf(b.root.value, b.popups, candidates, current), nodes)
    ensures ok <==>
      && b.root.Some? && |candidates| <= 256
      && Proper(scene, b.client, RootsOf(b.root.value, b.popups, candidates, current))
  {
    hide Proper, Done, Tidy, Queued, Captures;
    ok, nodes, pending := false, [], [];
    if b.root.None? || |candidates| > MAX_SURFACES {
      return;
    }
    var roots := RootsOf(b.root.value, b.popups, candidates, current);
    var queue := RootsPending(roots);
    Start(scene, b.client, roots, queue);
    var seen: set<nat> := {};
    var i := 0;
    while i < |queue|
      invariant 0 <= i <= |queue| && Queued(scene, b.client, |roots|, queue, nodes)
      invariant |roots| <= |queue| <= |roots| + MAX_SURFACES && SurfacesOf(queue)[..|roots|] == roots
      invariant seen == Members(SurfacesOf(queue)[..i]) && NoRepeats(SurfacesOf(queue)[..i])
      invariant forall j :: 0 <= j < i ==> Done(scene, b.client, roots, queue, j)
      invariant Proper(scene, b.client, roots) ==> Before(queue, nodes, i)
      decreases |roots| + MAX_SURFACES - i
    {
      var parent := queue[i].surface;
      ghost var proper := Proper(scene, b.client, roots);
      if proper {
        IsFit(scene, b.client, roots, queue, nodes, i);
      }
      if parent !in scene.surfaces || !scene.surfaces[parent].good || scene.surfaces[parent].client != b.client ||
        parent in seen || |scene.surfaces[parent].children| > MAX_SURFACES
      {
        return;
      }
      OneMoreSeen(SurfacesOf(queue), i);
      seen := seen + {parent};
      ghost var before := queue;
      var expanded;
      expanded, queue, nodes := Expand(scene, b.client, roots, queue, nodes, i);
      if !expanded {
        return;
      }
      Prefixes(before, queue, |roots|, i + 1);
      i := i + 1;
    }
    assert SurfacesOf(queue)[..i] == SurfacesOf(queue);
    ExactlyReachable(scene, b.client, roots, queue, nodes);
    ok, pending := true, queue;
    ForestCaptures(scene, b.client, roots, pending, nodes);
    ForestIsProper(scene, b.client, roots, pending, nodes);
  }

  lemma Start(scene: Scene, client: nat, roots: seq<nat>, queue: seq<Pending>)
    requires queue == RootsPending(roots)
    ensures Queued(scene, client, |roots|, queue, []) && SurfacesOf(queue) == roots
    ensures Proper(scene, client, roots) ==> Before(queue, [], 0)
  {}

  // In a proper graph no surface of the list is refused.
  lemma IsFit(scene: Scene, client: nat, roots: seq<nat>, pending: seq<Pending>, nodes: seq<Node>, i: nat)
    requires Queued(scene, client, |roots|, pending, nodes) && SurfacesOf(pending)[..|roots|] == roots && i < |pending|
    requires Proper(scene, client, roots) && Before(pending, nodes, i)
    ensures pending[i].surface in scene.surfaces && Fit(scene.surfaces[pending[i].surface], client)
    ensures pending[i].surface !in Members(SurfacesOf(pending)[..i])
  {
    var _ := QueuedPath(scene, client, roots, pending, nodes, i);
    SoundInScene(scene, client, roots, pending[i].surface);
    assert SurfacesOf(pending)[i] == pending[i].surface;
  }

  lemma OneMoreSeen(s: seq<nat>, i: nat)
    requires i < |s| && NoRepeats(s[..i]) && s[i] !in Members(s[..i])
    ensures NoRepeats(s[..i + 1]) && Members(s[..i + 1]) == Members(s[..i]) + {s[i]}
  {
    assert s[..i + 1] == s[..i] + [s[i]];
  }

  lemma Prefixes(a: seq<Pending>, b: seq<Pending>, m: nat, n: nat)
    requires a <= b && m <= |a| && n <= |a|
    ensures SurfacesOf(b)[..m] == SurfacesOf(a)[..m] && SurfacesOf(b)[..n] == SurfacesOf(a)[..n]
  {}

  // All children of the surface at place i.
  method Expand(scene: Scene, client: nat, ghost roots: seq<nat>, pending: seq<Pending>, nodes: seq<Node>, i: nat)
    returns (ok: bool, pending': seq<Pending>, nodes': seq<Node>)
    requires Queued(scene, client, |roots|, pending, nodes) && SurfacesOf(pending)[..|roots|] == roots
    requires i < |pending| && pending[i].surface in scene.surfaces && Fit(scene.surfaces[pending[i].surface], client)
    requires forall j :: 0 <= j < i ==> Done(scene, client, roots, pending, j)
    requires Proper(scene, client, roots) ==> Before(pending, nodes, i)
    ensures ok ==> Queued(scene, client, |roots|, pending', nodes') && pending <= pending'
    ensures ok ==>
      |pending'| <= |roots| + MAX_SURFACES && forall j :: 0 <= j <= i ==> Done(scene, client, roots, pending', j)
    ensures Proper(scene, client, roots) ==> ok && Before(pending', nodes', i + 1)
  {
    hide Proper, Tidy, Before;
    pending', nodes', ok := pending, nodes, true;
    var parent := pending[i].surface;
    ghost var proper := Proper(scene, client, roots);
    if proper {
      NoneYet(scene, pending, nodes, i);
    }
    var n := 0;
    while n < |scene.surfaces[parent].children|
      invariant 0 <= n <= |scene.surfaces[parent].children| && pending <= pending' && pending'[i].surface == parent
      invariant Queued(scene, client, |roots|, pending', nodes') && SurfacesOf(pending')[..|roots|] == roots
      invariant Expanded(scene, client, roots, pending', i, n) && ok
      invariant forall j :: 0 <= j < i ==> Done(scene, client, roots, pending', j)
      invariant proper ==> Tidy(scene, pending', nodes', i, n)
    {
      ghost var before := pending';
      ok, pending', nodes' := Capture(scene, client, roots, pending', nodes', i, n);
      if !ok {
        return;
      }
      Prefixes(before, pending', |roots|, i);
      n := n + 1;
    }
    if proper {
      AllOfThem(scene, pending', nodes', i);
    }
  }

  lemma NoneYet(scene: Scene, pending: seq<Pending>, nodes: seq<Node>, i: nat)
    requires i < |pending| && pending[i].surface in scene.surfaces && Before(pending, nodes, i)
    ensures Tidy(scene, pending, nodes, i, 0)
  {}

  lemma AllOfThem(scene: Scene, pending: seq<Pending>, nodes: seq<Node>, i: nat)
    requires i < |pending| && pending[i].surface in scene.surfaces
    requires Tidy(scene, pending, nodes, i, |scene.surfaces[pending[i].surface].children|)
    ensures Before(pending, nodes, i + 1)
  {
    var s := SurfacesOf(pending);
    assert s[..i + 1] == s[..i] + [pending[i].surface];
    forall node <- nodes ensures node.parent in s[..i + 1] {
      assert From(pending, node, i, pending[i].surface,
        scene.surfaces[pending[i].surface].children[..|scene.surfaces[pending[i].surface].children|]);
    }
  }

  lemma ExactlyReachable(scene: Scene, client: nat, roots: seq<nat>, pending: seq<Pending>, nodes: seq<Node>)
    requires Queued(scene, client, |roots|, pending, nodes) && SurfacesOf(pending)[..|roots|] == roots
    requires forall i :: 0 <= i < |pending| ==> Done(scene, client, roots, pending, i)
    ensures forall s :: s in SurfacesOf(pending) <==> Reachable(scene, client, Members(roots), s)
  {
    var all := Members(SurfacesOf(pending));
    forall a: nat, b: nat | a in all && Edge(scene, client, a, b) ensures b in all {
      var i :| 0 <= i < |pending| && SurfacesOf(pending)[i] == a;
      assert Done(scene, client, roots, pending, i);
      var sub :| sub in scene.surfaces[a].children && Leaf(scene, client, a, sub) == Some(b);
      var c :| 0 <= c < |scene.surfaces[a].children| && scene.surfaces[a].children[c] == sub;
      assert Holds(scene, client, pending, i, c);
    }
    assert Members(roots) <= all by {
      forall r | r in roots ensures r in SurfacesOf(pending) { assert r in SurfacesOf(pending)[..|roots|]; }
    }
    forall s ensures s in SurfacesOf(pending) <==> Reachable(scene, client, Members(roots), s) {
      if s in SurfacesOf(pending) {
        var i :| 0 <= i < |pending| && SurfacesOf(pending)[i] == s;
        var _ := QueuedPath(scene, client, roots, pending, nodes, i);
      }
      if Reachable(scene, client, Members(roots), s) {
        var p :| Path(scene, client, Members(roots), p) && p[|p| - 1] == s;
        ClosedHolds(scene, client, Members(roots), all, p);
      }
    }
  }

  // ---- destination() ----

  // The first captured node of a surface.
  function NodeOf(nodes: seq<Node>, s: nat): (r: Option<Node>)
    ensures r.Some? ==> r.value in nodes && r.value.surface == s
    ensures r.None? ==> forall n <- nodes :: n.surface != s
  {
    if nodes == [] then None else if nodes[0].surface == s then Some(nodes[0]) else NodeOf(nodes[1..], s)
  }

  // Is the surface still what was captured?
  predicate Unchanged(scene: Scene, s: nat, node: Node)
    requires s in scene.surfaces
  {
    && node.mapped && node.parent in scene.surfaces && scene.surfaces[s].role == Subsurface(node.sub)
      && scene.surfaces[s].shape == node.shape
    && node.sub in scene.subs
    && var sub := scene.subs[node.sub];
      sub.good && sub.surface == Some(s) && sub.parent == Some(node.parent) && sub.position == node.position
        && sub.z == node.z
  }

  // One step up from a subsurface, if it may be taken.
  function Up(scene: Scene, b: Snapshot, s: nat): Option<nat>
    requires s in scene.surfaces
  {
    var surface, node := scene.surfaces[s], NodeOf(b.nodes, s);
    if s !in b.withdrawn && surface.good && surface.mapped && b.root.Some? && surface.client == b.client && node.Some?
      && Unchanged(scene, s, node.value)
    then Some(node.value.parent) else None
  }

  // current: the surfaces whose popup chain is valid now and not withdrawn.
  predicate Anchor(b: Snapshot, current: set<nat>, s: nat) {
    s in current && (b.root == Some(s) || s in b.popups)
  }

  // Does the walk from s, after the surfaces seen, end at the window or at a captured popup?
  predicate Accepted(scene: Scene, b: Snapshot, current: set<nat>, s: nat, seen: set<nat>)
    decreases MAX_DEPTH - |seen|
  {
    if s in scene.surfaces && scene.surfaces[s].role.Subsurface? then
      |seen| < MAX_DEPTH && s !in seen && Up(scene, b, s).Some?
        && Accepted(scene, b, current, Up(scene, b, s).value, seen + {s})
    else Anchor(b, current, s)
  }

  // The surface is, in every respect, what this node says.
  ghost predicate Same(scene: Scene, s: nat, node: Node) {
    && node.surface == s && node.mapped && node.parent in scene.surfaces
    && s in scene.surfaces && scene.surfaces[s].role == Subsurface(node.sub) && scene.surfaces[s].shape == node.shape
    && node.sub in scene.subs && scene.subs[node.sub].good && scene.subs[node.sub].surface == Some(s)
    && scene.subs[node.sub].parent == Some(node.parent) && scene.subs[node.sub].position == node.position
    && scene.subs[node.sub].z == node.z
  }

  // s is alive, mapped and not withdrawn, unchanged since it was captured first, and t is the
  // parent it was captured under.
  ghost predicate StepsTo(scene: Scene, b: Snapshot, s: nat, t: nat) {
    && s in scene.surfaces && scene.surfaces[s].good && scene.surfaces[s].mapped && s !in b.withdrawn
    && b.root.Some? && scene.surfaces[s].client == b.client
    && exists k: nat :: k < |b.nodes| && (forall j :: 0 <= j < k ==> b.nodes[j].surface != s)
                        && Same(scene, s, b.nodes[k]) && b.nodes[k].parent == t
  }

  // A way up over at most 32 subsurfaces, none twice, to the window or to a captured popup.
  ghost predicate WayUp(scene: Scene, b: Snapshot, current: set<nat>, p: seq<nat>) {
    && 1 <= |p| <= 33 && (forall i, j :: 0 <= i < j < |p| - 1 ==> p[i] != p[j])
    && (forall i :: 0 <= i < |p| - 1 ==> p[i] in scene.surfaces && scene.surfaces[p[i]].role.Subsurface?
                                         && StepsTo(scene, b, p[i], p[i + 1]))
    && !(p[|p| - 1] in scene.surfaces && scene.surfaces[p[|p| - 1]].role.Subsurface?)
    && p[|p| - 1] in current && (b.root == Some(p[|p| - 1]) || p[|p| - 1] in b.popups)
  }

  lemma {:induction false} NodeOfFirst(nodes: seq<Node>, s: nat, k: nat)
    requires k < |nodes| && nodes[k].surface == s && forall j :: 0 <= j < k ==> nodes[j].surface != s
    ensures NodeOf(nodes, s) == Some(nodes[k])
    decreases |nodes|
  {
    if nodes[0].surface != s { NodeOfFirst(nodes[1..], s, k - 1); }
  }

  lemma {:induction false} FirstNode(nodes: seq<Node>, s: nat) returns (k: nat)
    requires NodeOf(nodes, s).Some?
    ensures k < |nodes| && nodes[k].surface == s && forall j :: 0 <= j < k ==> nodes[j].surface != s
    ensures NodeOf(nodes, s) == Some(nodes[k])
    decreases |nodes|
  {
    if nodes[0].surface == s {
      k := 0;
    } else {
      var later := FirstNode(nodes[1..], s);
      k := later + 1;
    }
  }

  lemma UpSteps(scene: Scene, b: Snapshot, s: nat, t: nat)
    requires s in scene.surfaces
    ensures Up(scene, b, s) == Some(t) <==> StepsTo(scene, b, s, t)
  {
    hide NodeOf;
    if Up(scene, b, s) == Some(t) {
      var k := FirstNode(b.nodes, s);
      assert Same(scene, s, b.nodes[k]);
    }
    if StepsTo(scene, b, s, t) {
      var k: nat :| k < |b.nodes| && (forall j :: 0 <= j < k ==> b.nodes[j].surface != s)
                    && Same(scene, s, b.nodes[k]) && b.nodes[k].parent == t;
      NodeOfFirst(b.nodes, s, k);
    }
  }

  // The walk accepts exactly the surfaces with such a way.
  lemma {:induction false} AcceptedHasWay(scene: Scene, b: Snapshot, current: set<nat>, s: nat, seen: set<nat>)
    returns (p: seq<nat>)
    requires Accepted(scene, b, current, s, seen) && |seen| <= MAX_DEPTH
    ensures p != [] && p[0] == s && |p| + |seen| <= 33 && WayUp(scene, b, current, p)
    ensures forall i :: 0 <= i < |p| - 1 ==> p[i] !in seen
    decreases MAX_DEPTH - |seen|
  {
    hide Up, StepsTo;
    if s in scene.surfaces && scene.surfaces[s].role.Subsurface? {
      var t := Up(scene, b, s).value;
      UpSteps(scene, b, s, t);
      var rest := AcceptedHasWay(scene, b, current, t, seen + {s});
      p := [s] + rest;
      assert forall i :: 0 < i < |p| - 1 ==> p[i] == rest[i - 1];
    } else {
      p := [s];
    }
  }

  lemma {:induction false} WayIsAccepted(scene: Scene, b: Snapshot, current: set<nat>, p: seq<nat>, seen: set<nat>)
    requires WayUp(scene, b, current, p) && |p| + |seen| <= 33
    requires forall i :: 0 <= i < |p| - 1 ==> p[i] !in seen
    ensures Accepted(scene, b, current, p[0], seen)
    decreases |p|
  {
    hide Up, StepsTo;
    if |p| > 1 {
      UpSteps(scene, b, p[0], p[1]);
      var rest := p[1..];
      assert forall i :: 0 <= i < |rest| ==> rest[i] == p[i + 1];
      WayIsAccepted(scene, b, current, rest, seen + {p[0]});
    }
  }

  // A surface whose place, stacking, shape or parent is not that of the node it was captured
  // as is refused, whatever else holds.
  lemma ChangedIsRefused(scene: Scene, b: Snapshot, current: set<nat>, s: nat, k: nat)
    requires k < |b.nodes| && b.nodes[k].surface == s && forall j :: 0 <= j < k ==> b.nodes[j].surface != s
    requires s in scene.surfaces && scene.surfaces[s].role.Subsurface?
    requires
      var (node, sub) := (b.nodes[k], scene.surfaces[s].role.sub);
      || sub !in scene.subs || scene.subs[sub].position != node.position || scene.subs[sub].z != node.z
      || scene.surfaces[s].shape != node.shape || scene.subs[sub].parent != Some(node.parent) || sub != node.sub
    ensures !Accepted(scene, b, current, s, {})
  {
    hide NodeOf;
    NodeOfFirst(b.nodes, s, k);
  }

  method Destination(scene: Scene, b: Snapshot, current: set<nat>, hit: nat) returns (ok: bool)
    ensures ok == Accepted(scene, b, current, hit, {})
    ensures ok <==> exists p :: WayUp(scene, b, current, p) && p[0] == hit
  {
    Ways(scene, b, current, hit);
    var s, seen := hit, {};
    while s in scene.surfaces && scene.surfaces[s].role.Subsurface?
      invariant |seen| <= MAX_DEPTH && Accepted(scene, b, current, hit, {}) == Accepted(scene, b, current, s, seen)
      decreases MAX_DEPTH - |seen|
    {
      if s in b.withdrawn || |seen| >= MAX_DEPTH || s in seen {
        return false;
      }
      var surface := scene.surfaces[s];
      if !surface.good || !surface.mapped || b.root.None? || surface.client != b.client {
        return false;
      }
      var node := NodeOf(b.nodes, s);
      if node.None? || !Unchanged(scene, s, node.value) {
        return false;
      }
      seen, s := seen + {s}, node.value.parent;
    }
    ok := Anchor(b, current, s);
  }

  lemma Ways(scene: Scene, b: Snapshot, current: set<nat>, hit: nat)
    ensures Accepted(scene, b, current, hit, {}) <==> exists p :: WayUp(scene, b, current, p) && p[0] == hit
  {
    hide Accepted, StepsTo;
    if Accepted(scene, b, current, hit, {}) {
      var p := AcceptedHasWay(scene, b, current, hit, {});
    }
    if p :| WayUp(scene, b, current, p) && p[0] == hit { WayIsAccepted(scene, b, current, p, {}); }
  }

  // Whatever scene it walks in, only surfaces of the captured forest are accepted.
  lemma OnlyForest(scene: Scene, b: Snapshot, current: set<nat>, s: nat,
                   was: Scene, roots: seq<nat>, pending: seq<Pending>)
    requires Forest(was, b.client, roots, pending, b.nodes)
    requires b.root.Some? && b.root.value in roots && forall p <- b.popups :: p in roots
    requires Accepted(scene, b, current, s, {})
    ensures Reachable(was, b.client, Members(roots), s)
  {
    if s in scene.surfaces && scene.surfaces[s].role.Subsurface? {
      var node := NodeOf(b.nodes, s).value;
      var k :| 0 <= k < |b.nodes| && b.nodes[k] == node;
      assert Placed(was, b.client, pending, |roots| + k, b.nodes[k]);
      assert SurfacesOf(pending)[|roots| + k] == s;
    } else {
      assert s in SurfacesOf(pending)[..|roots|];
    }
  }

  // This surface of the forest, and every one above it up to a root that is an anchor now, is
  // mapped and not withdrawn.
  ghost predicate Shown(scene: Scene, b: Snapshot, current: set<nat>, roots: nat, pending: seq<Pending>, i: nat)
    requires Queued(scene, b.client, roots, pending, b.nodes) && i < |pending|
    decreases i
  {
    if i < roots then Anchor(b, current, pending[i].surface)
    else
      && pending[i].surface in scene.surfaces && scene.surfaces[pending[i].surface].mapped
      && pending[i].surface !in b.withdrawn
      && exists j: nat :: j < i && Below(scene, b.client, pending[j], pending[i], b.nodes[i - roots])
                          && Shown(scene, b, current, roots, pending, j)
  }

  // As long as nothing changes, exactly the surfaces that are shown with all those above them are
  // accepted: the depth bound of the walk admits exactly what that of the inventory let in.
  lemma {:induction false} AllOfForest(scene: Scene, b: Snapshot, current: set<nat>, roots: seq<nat>,
                                       pending: seq<Pending>, i: nat, seen: set<nat>)
    requires Forest(scene, b.client, roots, pending, b.nodes) && i < |pending|
    requires b.root.Some? && forall r <- roots :: r in scene.surfaces && !scene.surfaces[r].role.Subsurface?
    requires |seen| + pending[i].depth <= MAX_DEPTH
      && forall x <- seen :: exists j :: i < j < |pending| && pending[j].surface == x
    ensures Accepted(scene, b, current, pending[i].surface, seen) <==> Shown(scene, b, current, |roots|, pending, i)
    decreases i
  {
    hide Done, Reachable, Up, Below, Fit, Anchor;
    var s := pending[i].surface;
    assert SurfacesOf(pending)[i] == s;
    if i < |roots| {
      assert s in roots;
    } else {
      var k := i - |roots|;
      var node := b.nodes[k];
      assert Placed(scene, b.client, pending, |roots| + k, node);
      var j :| 0 <= j < i && Below(scene, b.client, pending[j], pending[i], node);
      StepUp(scene, b, roots, pending, k, j);
      OneAbove(scene, b, roots, pending, k, j);
      assert s !in seen by {
        forall x <- seen ensures x != s {
          var l :| i < l < |pending| && pending[l].surface == x;
          assert SurfacesOf(pending)[i] != SurfacesOf(pending)[l];
        }
      }
      AllOfForest(scene, b, current, roots, pending, j, seen + {s});
    }
  }

  // A leaf has one place above it.
  lemma OneAbove(scene: Scene, b: Snapshot, roots: seq<nat>, pending: seq<Pending>, k: nat, j: nat)
    requires Forest(scene, b.client, roots, pending, b.nodes) && k < |b.nodes| && j < |roots| + k
    requires Below(scene, b.client, pending[j], pending[|roots| + k], b.nodes[k])
    ensures forall l: nat :: l < |roots| + k && Below(scene, b.client, pending[l], pending[|roots| + k], b.nodes[k]) ==>
      l == j
  {
    hide Done, Reachable, Placed;
    forall l: nat | l < |roots| + k
      && Below(scene, b.client, pending[l], pending[|roots| + k], b.nodes[k]) ensures l == j {
      assert SurfacesOf(pending)[l] == b.nodes[k].parent == SurfacesOf(pending)[j];
    }
  }

  // While nothing changes, the walk goes up from a captured leaf to the parent it was captured
  // under, exactly if the leaf is mapped and not withdrawn.
  lemma StepUp(scene: Scene, b: Snapshot, roots: seq<nat>, pending: seq<Pending>, k: nat, j: nat)
    requires Forest(scene, b.client, roots, pending, b.nodes) && b.root.Some? && k < |b.nodes| && j < |roots| + k
    requires Below(scene, b.client, pending[j], pending[|roots| + k], b.nodes[k])
    ensures var s := pending[|roots| + k].surface;
      && s in scene.surfaces && scene.surfaces[s].role.Subsurface?
      && Up(scene, b, s) == (if scene.surfaces[s].mapped && s !in b.withdrawn then Some(pending[j].surface) else None)
      && pending[|roots| + k].depth == pending[j].depth + 1
  {
    hide Expanded, Reachable, Placed;
    OnlyNode(scene, b.client, roots, pending, b.nodes, k);
    assert Done(scene, b.client, roots, pending, j) && Done(scene, b.client, roots, pending, |roots| + k);
  }

  // A surface of the forest has one node.
  lemma OnlyNode(scene: Scene, client: nat, roots: seq<nat>, pending: seq<Pending>, nodes: seq<Node>, k: nat)
    requires Forest(scene, client, roots, pending, nodes) && k < |nodes|
    ensures NodeOf(nodes, nodes[k].surface) == Some(nodes[k])
  {
    hide Done, HasParent, Reachable;
    var node := NodeOf(nodes, nodes[k].surface);
    assert nodes[k] in nodes;
    var l :| 0 <= l < |nodes| && nodes[l] == node.value;
    assert Placed(scene, client, pending, |roots| + k, nodes[k])
      && Placed(scene, client, pending, |roots| + l, nodes[l]);
    assert SurfacesOf(pending)[|roots| + k] == SurfacesOf(pending)[|roots| + l];
  }
}
