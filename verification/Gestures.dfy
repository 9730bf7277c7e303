// What one action line of the guardian means: a gesture, and the timed events that perform it.
module Gestures {
  import opened Options
  import opened Lists
  import opened Keymaps
  import opened Utf8

  datatype What =
    | Move(p: Point)
    | Button(button: nat, down: bool)
    | Key(key: nat, down: bool)
    | Scroll(axis: nat, sign: int)
    | Gate

  datatype Point = Point(x: real, y: real)

  // at: microseconds after the start of the action.
  datatype Event = Event(what: What, at: nat)

  datatype Gesture =
    | MoveTo(p: Point)
    | Drag(mods: seq<nat>, button: nat, start: Point, path: seq<Point>, ms: nat)
    | Clicks(mods: seq<nat>, button: nat, p: Point, count: nat)
    | Wheel(mods: seq<nat>, axis: nat, sign: int, count: nat, p: Point)
    | Chord(keys: seq<nat>)
    | Type(cps: seq<nat>)
    | Replace(p: Point, select: seq<nat>, fill: Fill)   // click, select all, then type or erase

  datatype Fill = Erasing(keys: seq<nat>) | Typing(cps: seq<nat>)

  const CLICK_US: nat := 80_000
  const NOTCH_US: nat := 30_000
  const SETTLE_US: nat := 50_000

  function Downs(keys: seq<nat>, at: nat): seq<Event> {
    seq(|keys|, i requires 0 <= i < |keys| => Event(Key(keys[i], true), at))
  }

  function Ups(keys: seq<nat>, at: nat): seq<Event> {
    seq(|keys|, i requires 0 <= i < |keys| => Event(Key(keys[|keys| - 1 - i], false), at))
  }

  function ChordEvents(keys: seq<nat>, at: nat): seq<Event> { Downs(keys, at) + Ups(keys, at) }

  // The i-th of n moves that are spread evenly over ms milliseconds.
  function Due(ms: nat, i: nat, n: nat): nat
    requires n > 0
  {
    ms * 1000 * i / n
  }

  // The first moves of n along a path, after its start.
  function MoveEvents(path: seq<Point>, ms: nat, n: nat): seq<Event>
    requires n > 0
  {
    seq(|path|, i requires 0 <= i < |path| => Event(Move(path[i]), Due(ms, i + 1, n)))
  }

  function PathEvents(path: seq<Point>, ms: nat): seq<Event> {
    if path == [] then [] else MoveEvents(path, ms, |path|)
  }

  // Between the first press and the last release of count clicks.
  function ClickEvents(button: nat, count: nat): seq<Event>
    requires count >= 1
  {
    if count == 1 then []
    else ClickEvents(button, count - 1)
         + [Event(Button(button, false), (count - 2) * CLICK_US)]
           + [Event(Button(button, true), (count - 1) * CLICK_US)]
  }

  function WheelEvents(axis: nat, sign: int, count: nat): seq<Event> {
    seq(count, i requires 0 <= i < count => Event(Scroll(axis, sign), i * NOTCH_US))
  }

  function Typable(m: Keymap, cps: seq<nat>): bool {
    forall cp <- cps :: Keystroke(m, Character(cp), []).Some?
  }

  // Each character's chord, behind a gate of its own if the text is gated.
  function TextEvents(m: Keymap, cps: seq<nat>, gates: bool, at: nat): seq<Event>
    requires Typable(m, cps)
  {
    if cps == [] then []
    else TextEvents(m, cps[..|cps| - 1], gates, at) + CharacterEvents(m, cps[|cps| - 1], gates, at)
  }

  function CharacterEvents(m: Keymap, cp: nat, gates: bool, at: nat): seq<Event>
    requires Keystroke(m, Character(cp), []).Some?
  {
    (if gates then [Event(Gate, at)] else []) + ChordEvents(Keystroke(m, Character(cp), []).value, at)
  }

  // A gesture the guardian can perform with this keymap.
  predicate Performable(m: Keymap, g: Gesture) {
    match g
    case MoveTo(_) => true
    case Drag(mods, button, _, path, ms) => ModsOk(mods) && 272 <= button <= 279 && 1 <= |path| <= 255 && ms <= 1000
    case Clicks(mods, button, _, count) => ModsOk(mods) && 272 <= button <= 279 && 1 <= count <= 3
    case Wheel(mods, _, _, count, _) => ModsOk(mods) && 1 <= count <= 20
    case Chord(keys) => ChordOk(keys) && keys != []
    case Type(cps) => 1 <= |cps| <= MAX_CHARACTERS && AllPrintable(cps) && Typable(m, cps)
    case Replace(_, select, Erasing(keys)) => ChordOk(select) && ChordOk(keys)
    case Replace(_, select, Typing(cps)) =>
      ChordOk(select) && 1 <= |cps| <= MAX_CHARACTERS && AllPrintable(cps) && Typable(m, cps)
  }

  predicate ModsOk(mods: seq<nat>) {
    |mods| <= 4 && (forall k <- mods :: 1 <= k <= 247) && NoRepeats(mods)
  }

  function ClickInto(p: Point): seq<Event> {
    [Event(Gate, 0), Event(Move(p), 0), Event(Gate, 0), Event(Button(272, true), 0), Event(Button(272, false), 0)]
  }

  function GatedChord(c: seq<nat>): seq<Event> { [Event(Gate, SETTLE_US)] + ChordEvents(c, SETTLE_US) }

  function FillEvents(m: Keymap, fill: Fill): seq<Event>
    requires fill.Typing? ==> Typable(m, fill.cps)
  {
    match fill
    case Erasing(keys) => GatedChord(keys)
    case Typing(cps) => TextEvents(m, cps, true, SETTLE_US)
  }

  function Events(m: Keymap, g: Gesture): seq<Event>
    requires Performable(m, g)
  {
    match g
    case MoveTo(p) => [Event(Move(p), 0)]
    case Drag(mods, button, start, path, ms) =>
      [Event(Move(start), 0)] + Downs(mods, 0) + [Event(Button(button, true), 0)] + PathEvents(path, ms)
      + [Event(Button(button, false), Finish(g))] + Ups(mods, Finish(g))
    case Clicks(mods, button, p, count) =>
      [Event(Move(p), 0)] + Downs(mods, 0) + [Event(Button(button, true), 0)] + ClickEvents(button, count)
      + [Event(Button(button, false), Finish(g))] + Ups(mods, Finish(g))
    case Wheel(mods, axis, sign, count, p) =>
      [Event(Move(p), 0)] + Downs(mods, 0) + WheelEvents(axis, sign, count) + Ups(mods, Finish(g))
    case Chord(keys) => ChordEvents(keys, 0)
    case Type(cps) => TextEvents(m, cps, false, 0)
    case Replace(p, select, fill) => ClickInto(p) + GatedChord(select) + FillEvents(m, fill)
  }

  // When the last event of a gesture is due.
  function Finish(g: Gesture): (at: nat)
  {
    match g
    case Drag(_, _, _, _, ms) => ms * 1000
    case Clicks(_, _, _, count) => if count == 0 then 0 else (count - 1) * CLICK_US
    case Wheel(_, _, _, count, _) => if count == 0 then 0 else (count - 1) * NOTCH_US
    case Replace(_, _, _) => SETTLE_US
    case _ => 0
  }

  // ---- Balance ----

  datatype Pressed = PressedKey(key: nat) | PressedButton(button: nat)

  // What is held after an event; none if it presses something held or releases something not.
  function PlayOne(held: set<Pressed>, e: Event): Option<set<Pressed>> {
    match e.what
    case Key(k, down) => Change(held, PressedKey(k), down)
    case Button(b, down) => Change(held, PressedButton(b), down)
    case _ => Some(held)
  }

  function Change(held: set<Pressed>, p: Pressed, down: bool): Option<set<Pressed>> {
    if down == (p in held) then None else if down then Some(held + {p}) else Some(held - {p})
  }

  function Play(held: set<Pressed>, es: seq<Event>): Option<set<Pressed>>
    decreases |es|
  {
    if es == [] then Some(held)
    else var h := PlayOne(held, es[0]);
         if h.None? then None else Play(h.value, es[1..])
  }

  lemma {:induction false} PlayConcat(held: set<Pressed>, a: seq<Event>, b: seq<Event>)
    ensures Play(held, a + b) == if Play(held, a).None? then None else Play(Play(held, a).value, b)
    decreases |a|
  {
    if a == [] {
      assert a + b == b;
    } else {
      assert (a + b)[0] == a[0] && (a + b)[1..] == a[1..] + b;
      var h := PlayOne(held, a[0]);
      if h.Some? { PlayConcat(h.value, a[1..], b); }
    }
  }

  // Every prefix of a performance that succeeds succeeds.
  lemma PlayPrefix(held: set<Pressed>, es: seq<Event>, n: nat)
    requires n <= |es| && Play(held, es).Some?
    ensures Play(held, es[..n]).Some?
  {
    PlayConcat(held, es[..n], es[n..]);
    assert es == es[..n] + es[n..];
  }

  // es performed on anything disjoint from k leaves what was held.
  ghost predicate Neutral(es: seq<Event>, uses: set<Pressed>) {
    forall held: set<Pressed> {:trigger Play(held, es)} :: held !! uses ==> Play(held, es) == Some(held)
  }

  function Keys(keys: seq<nat>): set<Pressed> { set k <- keys :: PressedKey(k) }

  lemma NeutralConcat(a: seq<Event>, b: seq<Event>, uses: set<Pressed>)
    requires Neutral(a, uses) && Neutral(b, uses)
    ensures Neutral(a + b, uses)
  {
    forall held: set<Pressed> | held !! uses ensures Play(held, a + b) == Some(held) {
      PlayConcat(held, a, b);
    }
  }

  lemma NeutralWeaken(a: seq<Event>, uses: set<Pressed>, more: set<Pressed>)
    requires Neutral(a, uses) && uses <= more
    ensures Neutral(a, more)
  {
    forall held: set<Pressed> | held !! more ensures Play(held, a) == Some(held) {
      assert held !! uses;
    }
  }

  // Modifiers pressed, something neutral done, and the modifiers released in reverse.
  lemma {:induction false} Bracket(keys: seq<nat>, a: nat, b: nat, mid: seq<Event>, uses: set<Pressed>)
    requires NoRepeats(keys) && Neutral(mid, uses) && Keys(keys) !! uses
    ensures Neutral(Downs(keys, a) + mid + Ups(keys, b), uses + Keys(keys))
  {
    if keys == [] {
      assert Downs(keys, a) + mid + Ups(keys, b) == mid;
      NeutralWeaken(mid, uses, uses + Keys(keys));
    } else {
      var k, rest := keys[0], keys[1..];
      assert Keys(rest) <= Keys(keys) && PressedKey(k) !in Keys(rest) && PressedKey(k) in Keys(keys);
      Bracket(rest, a, b, mid, uses);
      var down, up := Event(Key(k, true), a), Event(Key(k, false), b);
      var inner := Downs(rest, a) + mid + Ups(rest, b);
      assert Downs(keys, a) + mid + Ups(keys, b) == [down] + inner + [up] by {
        assert Downs(keys, a) == [down] + Downs(rest, a);
        assert Ups(keys, b) == Ups(rest, b) + [up];
      }
      Wrap(inner, PressedKey(k), down, up, uses + Keys(rest));
      NeutralWeaken([down] + inner + [up], uses + Keys(rest) + {PressedKey(k)}, uses + Keys(keys));
    }
  }

  // One press around something neutral.
  lemma Wrap(inner: seq<Event>, p: Pressed, down: Event, up: Event, uses: set<Pressed>)
    requires Neutral(inner, uses) && p !in uses
    requires forall h :: PlayOne(h, down) == Change(h, p, true) && PlayOne(h, up) == Change(h, p, false)
    ensures Neutral([down] + inner + [up], uses + {p})
  {
    forall held: set<Pressed> | held !! uses + {p} ensures Play(held, [down] + inner + [up]) == Some(held) {
      PlayConcat(held, [down] + inner, [up]);
      PlayConcat(held, [down], inner);
      assert Play(held, [down]) == Play(held + {p}, []) == Some(held + {p});
      assert held + {p} !! uses;
      assert Play(held + {p}, [up]) == Play(held + {p} - {p}, []);
      assert held + {p} - {p} == held;
    }
  }

  predicate Still(es: seq<Event>) { forall e <- es :: e.what.Move? || e.what.Scroll? || e.what.Gate? }

  // Motion, scrolling and gates hold and release nothing.
  lemma {:induction false} StillKeeps(held: set<Pressed>, es: seq<Event>)
    requires Still(es)
    ensures Play(held, es) == Some(held)
    decreases |es|
  {
    if es != [] {
      assert es[0] in es;
      StillKeeps(held, es[1..]);
    }
  }

  lemma StillNeutral(es: seq<Event>)
    requires Still(es)
    ensures Neutral(es, {})
  {
    forall held: set<Pressed> ensures Play(held, es) == Some(held) {
      StillKeeps(held, es);
    }
  }

  lemma ChordNeutral(keys: seq<nat>, at: nat)
    requires NoRepeats(keys)
    ensures Neutral(ChordEvents(keys, at), Keys(keys))
  {
    StillNeutral([]);
    Bracket(keys, at, at, [], {});
    assert Downs(keys, at) + [] + Ups(keys, at) == ChordEvents(keys, at);
    assert {} + Keys(keys) == Keys(keys);
  }

  // Between its first press and its last release, a button is released and pressed in turn.
  lemma {:induction false} ClicksKeep(held: set<Pressed>, button: nat, count: nat)
    requires count >= 1 && PressedButton(button) in held
    ensures Play(held, ClickEvents(button, count)) == Some(held)
  {
    if count > 1 {
      var before := ClickEvents(button, count - 1);
      var up, down := Event(Button(button, false), (count - 2) * CLICK_US),
        Event(Button(button, true), (count - 1) * CLICK_US);
      ClicksKeep(held, button, count - 1);
      PlayConcat(held, before + [up], [down]);
      PlayConcat(held, before, [up]);
      var released := held - {PressedButton(button)};
      assert Play(held, [up]) == Play(released, []);
      assert Play(released, [down]) == Play(released + {PressedButton(button)}, []);
      assert released + {PressedButton(button)} == held;
    }
  }

  // A press, something that keeps whatever is held with it, and the release.
  lemma ButtonNeutral(button: nat, mid: seq<Event>, a: nat, b: nat)
    requires forall held: set<Pressed> {:trigger Play(held, mid)} ::
      PressedButton(button) in held ==> Play(held, mid) == Some(held)
    ensures Neutral([Event(Button(button, true), a)] + mid + [Event(Button(button, false), b)], {PressedButton(button)})
  {
    var p := PressedButton(button);
    var down, up := Event(Button(button, true), a), Event(Button(button, false), b);
    forall held: set<Pressed> | held !! {p} ensures Play(held, [down] + mid + [up]) == Some(held) {
      PlayConcat(held, [down] + mid, [up]);
      PlayConcat(held, [down], mid);
      assert Play(held, [down]) == Play(held + {p}, []);
      assert Play(held + {p}, [up]) == Play(held + {p} - {p}, []);
      assert held + {p} - {p} == held;
    }
  }

  const ANYTHING_TYPED: set<Pressed> := set k: nat | k <= 247 :: PressedKey(k)

  lemma {:induction false} TextNeutral(m: Keymap, cps: seq<nat>, gates: bool, at: nat)
    requires Typable(m, cps)
    ensures Neutral(TextEvents(m, cps, gates, at), ANYTHING_TYPED)
    decreases |cps|
  {
    if cps == [] {
      StillNeutral([]);
      NeutralWeaken([], {}, ANYTHING_TYPED);
    } else {
      TextNeutral(m, cps[..|cps| - 1], gates, at);
      CharacterNeutral(m, cps[|cps| - 1], gates, at);
      NeutralConcat(TextEvents(m, cps[..|cps| - 1], gates, at), CharacterEvents(m, cps[|cps| - 1], gates, at),
        ANYTHING_TYPED);
    }
  }

  lemma GateNeutral(gates: bool, at: nat)
    ensures Neutral(if gates then [Event(Gate, at)] else [], ANYTHING_TYPED)
  {
    var g := if gates then [Event(Gate, at)] else [];
    StillNeutral(g);
    NeutralWeaken(g, {}, ANYTHING_TYPED);
  }

  lemma ChordTyped(keys: seq<nat>, at: nat)
    requires ChordOk(keys)
    ensures Neutral(ChordEvents(keys, at), ANYTHING_TYPED)
  {
    ChordNeutral(keys, at);
    NeutralWeaken(ChordEvents(keys, at), Keys(keys), ANYTHING_TYPED);
  }

  lemma CharacterNeutral(m: Keymap, cp: nat, gates: bool, at: nat)
    requires Keystroke(m, Character(cp), []).Some?
    ensures Neutral(CharacterEvents(m, cp, gates, at), ANYTHING_TYPED)
  {
    var c := Keystroke(m, Character(cp), []).value;
    GateNeutral(gates, at);
    ChordTyped(c, at);
    NeutralConcat(if gates then [Event(Gate, at)] else [], ChordEvents(c, at), ANYTHING_TYPED);
  }

  lemma Reassociate(a: seq<Event>, b: seq<Event>, c: seq<Event>, d: seq<Event>, e: seq<Event>, f: seq<Event>)
    ensures a + b + c + d + e + f == a + (b + (c + d + e) + f)
  {}

  lemma BracketedBalance(mods: seq<nat>, first: Event, mid: seq<Event>, b: nat, uses: set<Pressed>)
    requires NoRepeats(mods) && Still([first]) && Neutral(mid, uses) && Keys(mods) !! uses
    ensures Play({}, [first] + (Downs(mods, 0) + mid + Ups(mods, b))) == Some({})
  {
    var es := Downs(mods, 0) + mid + Ups(mods, b);
    Bracket(mods, 0, b, mid, uses);
    StillKeeps({}, [first]);
    PlayConcat({}, [first], es);
    assert {} !! uses + Keys(mods);
  }

  lemma BalancedPointer(m: Keymap, g: Gesture)
    requires Performable(m, g) && (g.Drag? || g.Clicks?)
    ensures Play({}, Events(m, g)) == Some({})
  {
    var first := Event(Move(if g.Drag? then g.start else g.p), 0);
    var mid := if g.Drag? then PathEvents(g.path, g.ms) else ClickEvents(g.button, g.count);
    var down, up := Event(Button(g.button, true), 0), Event(Button(g.button, false), Finish(g));
    forall held: set<Pressed> | PressedButton(g.button) in held ensures Play(held, mid) == Some(held) {
      if g.Drag? { StillKeeps(held, mid); } else { ClicksKeep(held, g.button, g.count); }
    }
    ButtonNeutral(g.button, mid, 0, Finish(g));
    BracketedBalance(g.mods, first, [down] + mid + [up], Finish(g), {PressedButton(g.button)});
    Reassociate([first], Downs(g.mods, 0), [down], mid, [up], Ups(g.mods, Finish(g)));
  }

  lemma BalancedWheel(m: Keymap, g: Gesture)
    requires Performable(m, g) && g.Wheel?
    ensures Play({}, Events(m, g)) == Some({})
  {
    var first := Event(Move(g.p), 0);
    var mid := WheelEvents(g.axis, g.sign, g.count);
    StillNeutral(mid);
    BracketedBalance(g.mods, first, mid, Finish(g), {});
    assert Events(m, g) == [first] + (Downs(g.mods, 0) + mid + Ups(g.mods, Finish(g)));
  }

  lemma ClickIntoNeutral(p: Point)
    ensures Play({}, ClickInto(p)) == Some({})
  {
    var before := [Event(Gate, 0), Event(Move(p), 0), Event(Gate, 0)];
    var click := [Event(Button(272, true), 0)] + [] + [Event(Button(272, false), 0)];
    StillKeeps({}, before);
    ButtonNeutral(272, [], 0, 0);
    PlayConcat({}, before, click);
    assert ClickInto(p) == before + click;
  }

  lemma GatedChordNeutral(c: seq<nat>)
    requires ChordOk(c)
    ensures Neutral(GatedChord(c), ANYTHING_TYPED)
  {
    GateNeutral(true, SETTLE_US);
    ChordTyped(c, SETTLE_US);
    NeutralConcat([Event(Gate, SETTLE_US)], ChordEvents(c, SETTLE_US), ANYTHING_TYPED);
  }

  lemma FillNeutral(m: Keymap, fill: Fill)
    requires match fill case Erasing(keys) => ChordOk(keys) case Typing(cps) => Typable(m, cps)
    ensures Neutral(FillEvents(m, fill), ANYTHING_TYPED)
  {
    match fill {
      case Erasing(keys) => GatedChordNeutral(keys);
      case Typing(cps) => TextNeutral(m, cps, true, SETTLE_US);
    }
  }

  lemma BalancedReplace(m: Keymap, g: Gesture)
    requires Performable(m, g) && g.Replace?
    ensures Play({}, Events(m, g)) == Some({})
  {
    hide GatedChord, ClickInto, FillEvents, Play;
    ClickIntoNeutral(g.p);
    GatedChordNeutral(g.select);
    FillNeutral(m, g.fill);
    PlayConcat({}, ClickInto(g.p) + GatedChord(g.select), FillEvents(m, g.fill));
    PlayConcat({}, ClickInto(g.p), GatedChord(g.select));
  }

  // From an empty ledger no gesture presses what it holds or releases what it does not, and it
  // ends with everything up.
  lemma Balanced(m: Keymap, g: Gesture)
    requires Performable(m, g)
    ensures Play({}, Events(m, g)) == Some({})
  {
    match g {
      case MoveTo(p) => StillKeeps({}, Events(m, g));
      case Drag(_, _, _, _, _) => BalancedPointer(m, g);
      case Clicks(_, _, _, _) => BalancedPointer(m, g);
      case Wheel(_, _, _, _, _) => BalancedWheel(m, g);
      case Chord(keys) => ChordTyped(keys, 0);
      case Type(cps) => TextNeutral(m, cps, false, 0);
      case Replace(_, _, _) => BalancedReplace(m, g);
    }
  }

  // ---- Times and size ----

  // Due times never decrease and lie between lo and hi.
  predicate Within(es: seq<Event>, lo: nat, hi: nat) {
    && (forall i :: 0 <= i < |es| ==> lo <= es[i].at <= hi)
    && (forall i, j :: 0 <= i < j < |es| ==> es[i].at <= es[j].at)
  }

  lemma OneWithin(e: Event)
    ensures Within([e], e.at, e.at)
  {}

  lemma ModifiersWithin(mods: seq<nat>, at: nat)
    ensures Within(Downs(mods, at), at, at) && Within(Ups(mods, at), at, at)
  {}

  lemma WithinConcat(a: seq<Event>, b: seq<Event>, lo: nat, mid: nat, hi: nat)
    requires lo <= mid <= hi && Within(a, lo, mid) && Within(b, mid, hi)
    ensures Within(a + b, lo, hi)
  {}

  lemma Scaled(x: nat, i: nat, j: nat)
    requires i <= j
    ensures x * i <= x * j
  {}

  lemma OneMore(n: nat, q: nat)
    ensures n * (q + 1) == n * q + n
  {}

  lemma Faster(a: nat, b: nat, n: nat)
    requires n > 0 && a <= b
    ensures a / n <= b / n
  {
    var p, q := a / n, b / n;
    OneMore(n, q);
    if p > q { Scaled(n, q + 1, p); }
  }

  lemma Whole(x: nat, n: nat)
    requires n > 0
    ensures x * n / n == x
  {
    var q := n * x / n;
    OneMore(n, q);
    if q < x { Scaled(n, q + 1, x); }
    OneMore(n, x);
    if q > x { Scaled(n, x + 1, q); }
    assert n * x == x * n;
  }

  lemma PathDue(x: nat, i: nat, j: nat, n: nat)
    requires i <= j < n
    ensures x * (i + 1) / n <= x * (j + 1) / n <= x
  {
    Scaled(x, i + 1, j + 1);
    Scaled(x, j + 1, n);
    Faster(x * (i + 1), x * (j + 1), n);
    Faster(x * (j + 1), x * n, n);
    Whole(x, n);
  }

  lemma LastDue(ms: nat, n: nat)
    requires n > 0
    ensures Due(ms, n, n) == ms * 1000
  {
    Whole(ms * 1000, n);
  }

  lemma MoveSnoc(path: seq<Point>, p: Point, ms: nat, n: nat)
    requires n > 0
    ensures MoveEvents(path + [p], ms, n) == MoveEvents(path, ms, n) + [Event(Move(p), Due(ms, |path| + 1, n))]
  {}

  lemma PathWithin(path: seq<Point>, ms: nat)
    requires path != []
    ensures Within(PathEvents(path, ms), 0, ms * 1000)
    ensures PathEvents(path, ms)[|path| - 1].at == ms * 1000
  {
    var n := |path|;
    var es := PathEvents(path, ms);
    forall i, j | 0 <= i <= j < n ensures es[i].at <= es[j].at <= ms * 1000 {
      PathDue(ms * 1000, i, j, n);
    }
    LastDue(ms, n);
  }

  lemma {:induction false} ClicksWithin(button: nat, count: nat)
    requires count >= 1
    ensures Within(ClickEvents(button, count), 0, (count - 1) * CLICK_US)
    ensures |ClickEvents(button, count)| == 2 * (count - 1)
  {
    if count > 1 {
      ClicksWithin(button, count - 1);
      var lo, hi := (count - 2) * CLICK_US, (count - 1) * CLICK_US;
      var before := ClickEvents(button, count - 1);
      WithinConcat(before, [Event(Button(button, false), lo)], 0, lo, lo);
      WithinConcat(before + [Event(Button(button, false), lo)], [Event(Button(button, true), hi)], 0, lo, hi);
    }
  }

  lemma {:induction false} TextWithin(m: Keymap, cps: seq<nat>, gates: bool, at: nat)
    requires Typable(m, cps)
    ensures Within(TextEvents(m, cps, gates, at), at, at)
    ensures |TextEvents(m, cps, gates, at)| <= 5 * |cps|
    ensures cps != [] ==> TextEvents(m, cps, gates, at) != []
    decreases |cps|
  {
    if cps != [] {
      TextWithin(m, cps[..|cps| - 1], gates, at);
      CharacterWithin(m, cps[|cps| - 1], gates, at);
    }
  }

  // A character takes at most two keys.
  lemma CharacterWithin(m: Keymap, cp: nat, gates: bool, at: nat)
    requires Keystroke(m, Character(cp), []).Some?
    ensures Within(CharacterEvents(m, cp, gates, at), at, at)
    ensures 1 <= |CharacterEvents(m, cp, gates, at)| <= 5
  {}

  lemma PointerWithin(m: Keymap, g: Gesture)
    requires Performable(m, g) && (g.Drag? || g.Clicks?)
    ensures Within(Events(m, g), 0, Finish(g)) && |Events(m, g)| <= 300
  {
    hide Within, PathEvents, ClickEvents;
    var mods, end := g.mods, Finish(g);
    var first := Event(Move(if g.Drag? then g.start else g.p), 0);
    var mid := if g.Drag? then PathEvents(g.path, g.ms) else ClickEvents(g.button, g.count);
    if g.Drag? { PathWithin(g.path, g.ms); PathLength(g.path, g.ms); } else { ClicksWithin(g.button, g.count); }
    var down, up := Event(Button(g.button, true), 0), Event(Button(g.button, false), end);
    OneWithin(first);
    OneWithin(down);
    OneWithin(up);
    ModifiersWithin(mods, 0);
    ModifiersWithin(mods, end);
    WithinConcat([first], Downs(mods, 0), 0, 0, 0);
    WithinConcat([first] + Downs(mods, 0), [down], 0, 0, 0);
    WithinConcat([first] + Downs(mods, 0) + [down], mid, 0, 0, end);
    WithinConcat([first] + Downs(mods, 0) + [down] + mid, [up], 0, end, end);
    WithinConcat([first] + Downs(mods, 0) + [down] + mid + [up], Ups(mods, end), 0, end, end);
  }

  lemma PathLength(path: seq<Point>, ms: nat)
    ensures |PathEvents(path, ms)| == |path|
  {}

  lemma WheelWithin(m: Keymap, g: Gesture)
    requires Performable(m, g) && g.Wheel?
    ensures Within(Events(m, g), 0, Finish(g)) && |Events(m, g)| <= 30
  {
    var a := [Event(Move(g.p), 0)] + Downs(g.mods, 0);
    var notches := WheelEvents(g.axis, g.sign, g.count);
    WithinConcat(a, notches, 0, 0, Finish(g));
    WithinConcat(a + notches, Ups(g.mods, Finish(g)), 0, Finish(g), Finish(g));
  }

  lemma GatedChordWithin(c: seq<nat>)
    requires |c| <= MAX_CHORD
    ensures Within(GatedChord(c), SETTLE_US, SETTLE_US) && 1 <= |GatedChord(c)| <= 33
  {}

  lemma ClickIntoWithin(p: Point)
    ensures Within(ClickInto(p), 0, 0)
  {}

  lemma FillWithin(m: Keymap, fill: Fill)
    requires
      match fill
      case Erasing(keys) => |keys| <= MAX_CHORD
      case Typing(cps) => 1 <= |cps| <= MAX_CHARACTERS && Typable(m, cps)
    ensures Within(FillEvents(m, fill), SETTLE_US, SETTLE_US) && 1 <= |FillEvents(m, fill)| <= 2560
  {
    match fill {
      case Erasing(keys) => GatedChordWithin(keys);
      case Typing(cps) => TextWithin(m, cps, true, SETTLE_US);
    }
  }

  lemma ReplaceWithin(m: Keymap, g: Gesture)
    requires Performable(m, g) && g.Replace?
    ensures Within(Events(m, g), 0, SETTLE_US) && 1 <= |Events(m, g)| <= 2600
    ensures Events(m, g)[|Events(m, g)| - 1].at == SETTLE_US
  {
    hide Within, GatedChord, FillEvents;
    ClickIntoWithin(g.p);
    GatedChordWithin(g.select);
    FillWithin(m, g.fill);
    WithinConcat(ClickInto(g.p), GatedChord(g.select), 0, 0, SETTLE_US);
    WithinConcat(ClickInto(g.p) + GatedChord(g.select), FillEvents(m, g.fill), 0, SETTLE_US, SETTLE_US);
    LastAt(FillEvents(m, g.fill), SETTLE_US);
  }

  lemma LastAt(es: seq<Event>, at: nat)
    requires Within(es, at, at) && es != []
    ensures es[|es| - 1].at == at
  {}

  // Every gesture has at least one event and fits the table; its due times never decrease and
  // end at Finish.
  lemma Timely(m: Keymap, g: Gesture)
    requires Performable(m, g)
    ensures Within(Events(m, g), 0, Finish(g))
    ensures 1 <= |Events(m, g)| <= 2600
    ensures Events(m, g)[|Events(m, g)| - 1].at == Finish(g)
    ensures match g
      case Drag(_, _, _, _, ms) => Finish(g) == ms * 1_000
      case Clicks(_, _, _, count) => Finish(g) == (count - 1) * 80_000
      case Wheel(_, _, _, count, _) => Finish(g) == (count - 1) * 30_000
      case Replace(_, _, _) => Finish(g) == 50_000
      case _ => Finish(g) == 0
  {
    hide CharacterEvents;
    match g {
      case MoveTo(p) =>
      case Drag(_, _, _, _, _) => PointerWithin(m, g);
      case Clicks(_, _, _, _) => PointerWithin(m, g);
      case Wheel(_, _, _, _, _) => WheelWithin(m, g);
      case Chord(keys) =>
      case Type(cps) => TextWithin(m, cps, false, 0);
      case Replace(_, _, _) => ReplaceWithin(m, g);
    }
  }

  // ---- What a text types ----

  function ShiftAfter(m: Keymap, shift: bool, es: seq<Event>): bool
    decreases |es|
  {
    if es == [] then shift
    else
      var isShift := es[0].what.Key? && es[0].what.key == SymbolKey(m, SHIFT_L);
      ShiftAfter(m, if isShift then es[0].what.down else shift, es[1..])
  }

  // The characters a keyboard with this keymap types as the events arrive.
  function Typed(m: Keymap, shift: bool, es: seq<Event>): seq<nat>
    decreases |es|
  {
    if es == [] then []
    else match es[0].what
      case Key(k, down) =>
        if k == SymbolKey(m, SHIFT_L) then Typed(m, down, es[1..])
        else (if down then [m.text(shift, k + 8)] else []) + Typed(m, shift, es[1..])
      case _ => Typed(m, shift, es[1..])
  }

  // What one event does.
  function ShiftBy(m: Keymap, shift: bool, e: Event): bool {
    if e.what.Key? && e.what.key == SymbolKey(m, SHIFT_L) then e.what.down else shift
  }

  function TypedBy(m: Keymap, shift: bool, e: Event): seq<nat> {
    if e.what.Key? && e.what.key != SymbolKey(m, SHIFT_L) && e.what.down then [m.text(shift, e.what.key + 8)] else []
  }

  lemma FirstTyped(m: Keymap, shift: bool, e: Event, es: seq<Event>)
    ensures ShiftAfter(m, shift, [e] + es) == ShiftAfter(m, ShiftBy(m, shift, e), es)
    ensures Typed(m, shift, [e] + es) == TypedBy(m, shift, e) + Typed(m, ShiftBy(m, shift, e), es)
  {
    hide SymbolKey;
    assert ([e] + es)[1..] == es;
  }

  lemma {:induction false} TypedConcat(m: Keymap, shift: bool, a: seq<Event>, b: seq<Event>)
    ensures ShiftAfter(m, shift, a + b) == ShiftAfter(m, ShiftAfter(m, shift, a), b)
    ensures Typed(m, shift, a + b) == Typed(m, shift, a) + Typed(m, ShiftAfter(m, shift, a), b)
    decreases |a|
  {
    if a == [] {
      assert a + b == b;
    } else {
      hide Typed, ShiftAfter, TypedBy, ShiftBy;
      var (e, rest) := (a[0], a[1..]);
      assert a == [e] + rest && a + b == [e] + (rest + b);
      FirstTyped(m, shift, e, rest);
      FirstTyped(m, shift, e, rest + b);
      TypedConcat(m, ShiftBy(m, shift, e), rest, b);
    }
  }

  // Shift on its own types nothing that is printable.
  predicate ShiftIsSilent(m: Keymap) {
    var k := SymbolKey(m, SHIFT_L) + 8;
    !Printable(m.text(false, k)) && !Printable(m.text(true, k))
  }

  lemma CharacterTyped(m: Keymap, cp: nat, gates: bool, at: nat)
    requires ShiftIsSilent(m) && Printable(cp) && Keystroke(m, Character(cp), []).Some?
    ensures Typed(m, false, CharacterEvents(m, cp, gates, at)) == [cp]
      && !ShiftAfter(m, false, CharacterEvents(m, cp, gates, at))
  {
    hide SymbolKey;
    var es := ChordEvents(Keystroke(m, Character(cp), []).value, at);
    if First(m, Shown(Character(cp), false), 9) != 0 { PlainTyped(m, cp, at); } else { ShiftedTyped(m, cp, at); }
    if gates {
      assert ([Event(Gate, at)] + es)[1..] == es;
    } else {
      assert [] + es == es;
    }
  }

  lemma PlainTyped(m: Keymap, cp: nat, at: nat)
    requires ShiftIsSilent(m) && Printable(cp) && First(m, Shown(Character(cp), false), 9) != 0
    ensures var es := ChordEvents(Keystroke(m, Character(cp), []).value, at);
            Typed(m, false, es) == [cp] && !ShiftAfter(m, false, es)
  {
    hide SymbolKey, Typed, ShiftAfter;
    var k := First(m, Shown(Character(cp), false), 9);
    assert m.text(false, k + 8) == cp && k != SymbolKey(m, SHIFT_L);
    var down, up := Event(Key(k, true), at), Event(Key(k, false), at);
    FirstTyped(m, false, down, [up] + []);
    FirstTyped(m, false, up, []);
    assert Keystroke(m, Character(cp), []).value == [k];
    assert ChordEvents([k], at) == [down] + ([up] + []);
    NothingTyped(m);
  }

  lemma ShiftedTyped(m: Keymap, cp: nat, at: nat)
    requires ShiftIsSilent(m) && Printable(cp) && Keystroke(m, Character(cp), []).Some?
    requires First(m, Shown(Character(cp), false), 9) == 0
    ensures var es := ChordEvents(Keystroke(m, Character(cp), []).value, at);
            Typed(m, false, es) == [cp] && !ShiftAfter(m, false, es)
  {
    hide SymbolKey, Typed, ShiftAfter;
    var s, k := SymbolKey(m, SHIFT_L), First(m, Shown(Character(cp), true), 9);
    assert m.text(true, k + 8) == cp && k != s;
    var es := [Event(Key(s, false), at)] + [];
    assert Keystroke(m, Character(cp), []).value == [s, k];
    assert ChordEvents([s, k], at) == [Event(Key(s, true), at)]
      + ([Event(Key(k, true), at)] + ([Event(Key(k, false), at)] + es));
    FirstTyped(m, false, Event(Key(s, true), at), [Event(Key(k, true), at)] + ([Event(Key(k, false), at)] + es));
    FirstTyped(m, true, Event(Key(k, true), at), [Event(Key(k, false), at)] + es);
    FirstTyped(m, true, Event(Key(k, false), at), es);
    FirstTyped(m, true, Event(Key(s, false), at), []);
    NothingTyped(m);
  }

  lemma NothingTyped(m: Keymap)
    ensures Typed(m, false, []) == [] && !ShiftAfter(m, false, [])
  {}

  // A text types exactly its characters, in order, and leaves shift up.
  lemma {:induction false} TextTyped(m: Keymap, cps: seq<nat>, gates: bool, at: nat)
    requires ShiftIsSilent(m) && AllPrintable(cps) && Typable(m, cps)
    ensures Typed(m, false, TextEvents(m, cps, gates, at)) == cps
      && !ShiftAfter(m, false, TextEvents(m, cps, gates, at))
    decreases |cps|
  {
    if cps != [] {
      var init, last := cps[..|cps| - 1], cps[|cps| - 1];
      TextTyped(m, init, gates, at);
      CharacterTyped(m, last, gates, at);
      TypedConcat(m, false, TextEvents(m, init, gates, at), CharacterEvents(m, last, gates, at));
      assert cps == init + [last];
    }
  }
}
