// What the events of each gesture do, as whoever receives them sees it.
module Effects {
  import opened Options
  import opened Lists
  import opened Keymaps
  import opened Utf8
  import opened Gestures
  import opened Grammar
  import opened Lines

  // The pointer's place and the keys that are down.
  datatype Hand = Hand(at: Option<Point>, keys: set<nat>)

  // A button or the wheel moved, with the hand like this.
  datatype Act = Act(what: What, hand: Hand)

  function After(h: Hand, es: seq<Event>): Hand
    decreases |es|
  {
    if es == [] then h
    else match es[0].what
      case Move(p) => After(h.(at := Some(p)), es[1..])
      case Key(k, down) => After(h.(keys := if down then h.keys + {k} else h.keys - {k}), es[1..])
      case _ => After(h, es[1..])
  }

  function Acts(h: Hand, es: seq<Event>): seq<Act>
    decreases |es|
  {
    if es == [] then []
    else
      (if es[0].what.Button? || es[0].what.Scroll? then [Act(es[0].what, h)] else [])
        + Acts(After(h, [es[0]]), es[1..])
  }

  // The keys that go down, each with the keys that are down before it.
  function Strikes(h: Hand, es: seq<Event>): seq<(nat, set<nat>)>
    decreases |es|
  {
    if es == [] then []
    else
      (if es[0].what.Key? && es[0].what.down then [(es[0].what.key, h.keys)] else [])
        + Strikes(After(h, [es[0]]), es[1..])
  }

  // The points the pointer visits.
  function Moves(es: seq<Event>): seq<Point>
    decreases |es|
  {
    if es == [] then [] else (if es[0].what.Move? then [es[0].what.p] else []) + Moves(es[1..])
  }

  // How far an axis is turned, down and right counted positive.
  function Turned(acts: seq<Act>, axis: nat): int
    decreases |acts|
  {
    if acts == [] then 0
    else (if acts[0].what.Scroll? && acts[0].what.axis == axis then acts[0].what.sign else 0) + Turned(acts[1..], axis)
  }

  function Times<T>(n: nat, s: seq<T>): seq<T> { if n == 0 then [] else Times(n - 1, s) + s }

  function Downed(mods: seq<nat>): set<nat> { set k <- mods }

  // All of the above, for one stretch of events after another.
  datatype Trace = Trace(hand: Hand, acts: seq<Act>, strikes: seq<(nat, set<nat>)>, moves: seq<Point>)

  function Of(h: Hand, es: seq<Event>): Trace { Trace(After(h, es), Acts(h, es), Strikes(h, es), Moves(es)) }

  function Then(a: Trace, b: Trace): Trace { Trace(b.hand, a.acts + b.acts, a.strikes + b.strikes, a.moves + b.moves) }

  lemma {:induction false} OfConcat(h: Hand, a: seq<Event>, b: seq<Event>)
    ensures Of(h, a + b) == Then(Of(h, a), Of(After(h, a), b))
    decreases |a|
  {
    if a == [] {
      assert a + b == b;
    } else {
      assert (a + b)[0] == a[0] && (a + b)[1..] == a[1..] + b;
      var next := After(h, [a[0]]);
      OneAfter(h, a);
      OneAfter(h, a + b);
      OfConcat(next, a[1..], b);
    }
  }

  lemma OneAfter(h: Hand, es: seq<Event>)
    requires es != []
    ensures After(h, es) == After(After(h, [es[0]]), es[1..])
  {
    assert [es[0]][1..] == [];
  }

  lemma One(h: Hand, e: Event)
    ensures After(h, [e]) == match e.what
      case Move(p) => h.(at := Some(p))
      case Key(k, down) => h.(keys := if down then h.keys + {k} else h.keys - {k})
      case _ => h
    ensures Acts(h, [e]) == if e.what.Button? || e.what.Scroll? then [Act(e.what, h)] else []
    ensures Strikes(h, [e]) == if e.what.Key? && e.what.down then [(e.what.key, h.keys)] else []
    ensures Moves([e]) == if e.what.Move? then [e.what.p] else []
  {
    assert [e][1..] == [];
  }

  // ---- The parts of a gesture ----

  // The keys of a chord, each pressed on top of those before it.
  function Struck(keys: seq<nat>): seq<(nat, set<nat>)> {
    seq(|keys|, i requires 0 <= i < |keys| => (keys[i], Downed(keys[..i])))
  }

  lemma {:induction false} DownsDo(at: Option<Point>, mods: seq<nat>, t: nat)
    ensures Of(Hand(at, {}), Downs(mods, t)) == Trace(Hand(at, Downed(mods)), [], Struck(mods), [])
  {
    hide After, Acts, Strikes, Moves, Downs, Downed, Struck;
    if mods == [] {
      Nothing(Hand(at, {}));
      NoDowns(t);
    } else {
      var (before, k) := (mods[..|mods| - 1], mods[|mods| - 1]);
      var e := Event(Key(k, true), t);
      DownsDo(at, before, t);
      OfConcat(Hand(at, {}), Downs(before, t), [e]);
      One(Hand(at, Downed(before)), e);
      DownsSnoc(before, k, t);
      assert before + [k] == mods;
    }
  }

  lemma NoDowns(t: nat)
    ensures Downs([], t) == [] && Downed([]) == {} && Struck([]) == []
  {}

  lemma DownsSnoc(mods: seq<nat>, k: nat, t: nat)
    ensures Downs(mods + [k], t) == Downs(mods, t) + [Event(Key(k, true), t)]
    ensures Downed(mods + [k]) == Downed(mods) + {k}
    ensures Struck(mods + [k]) == Struck(mods) + [(k, Downed(mods))]
  {
    StruckSnoc(mods, k);
  }

  lemma Nothing(h: Hand)
    ensures Of(h, []) == Trace(h, [], [], [])
  {}

  lemma StruckSnoc(keys: seq<nat>, k: nat)
    ensures Struck(keys + [k]) == Struck(keys) + [(k, Downed(keys))]
  {
    assert (keys + [k])[..|keys|] == keys;
    forall i | 0 <= i < |keys| ensures (keys + [k])[..i] == keys[..i] {}
  }

  lemma {:induction false} UpsDo(h: Hand, mods: seq<nat>, t: nat)
    ensures Of(h, Ups(mods, t)) == Trace(h.(keys := h.keys - Downed(mods)), [], [], [])
    decreases |mods|
  {
    hide After, Acts, Strikes, Moves, Ups, Downed;
    if mods == [] {
      Nothing(h);
      NoUps(h, t);
    } else {
      var e := Event(Key(mods[0], false), t);
      UpsDo(h, mods[1..], t);
      OfConcat(h, Ups(mods[1..], t), [e]);
      One(h.(keys := h.keys - Downed(mods[1..])), e);
      UpsSnoc(h, mods, t);
    }
  }

  lemma NoUps(h: Hand, t: nat)
    ensures Ups([], t) == [] && h.(keys := h.keys - Downed([])) == h
  {
    assert h.keys - Downed([]) == h.keys;
  }

  lemma UpsSnoc(h: Hand, mods: seq<nat>, t: nat)
    requires mods != []
    ensures Ups(mods, t) == Ups(mods[1..], t) + [Event(Key(mods[0], false), t)]
    ensures h.keys - Downed(mods[1..]) - {mods[0]} == h.keys - Downed(mods)
  {
    assert mods == [mods[0]] + mods[1..];
  }

  lemma ChordDo(at: Option<Point>, keys: seq<nat>, t: nat)
    ensures Of(Hand(at, {}), ChordEvents(keys, t)) == Trace(Hand(at, {}), [], Struck(keys), [])
  {
    hide After, Acts, Strikes, Moves;
    DownsDo(at, keys, t);
    UpsDo(Hand(at, Downed(keys)), keys, t);
    OfConcat(Hand(at, {}), Downs(keys, t), Ups(keys, t));
    assert Downed(keys) - Downed(keys) == {};
  }

  lemma {:induction false} PathDo(h: Hand, path: seq<Point>, ms: nat, n: nat)
    requires n > 0
    ensures Of(h, MoveEvents(path, ms, n)) ==
            Trace(if path == [] then h else h.(at := Some(path[|path| - 1])), [], [], path)
  {
    hide After, Acts, Strikes, Moves, MoveEvents, Due;
    if path == [] {
      NoMoves(ms, n);
      Nothing(h);
    } else {
      var (before, p) := (path[..|path| - 1], path[|path| - 1]);
      assert before + [p] == path;
      PathDo(h, before, ms, n);
      MoveSnoc(before, p, ms, n);
      OneMove(h, MoveEvents(before, ms, n), before, p, Due(ms, |before| + 1, n));
    }
  }

  lemma NoMoves(ms: nat, n: nat)
    requires n > 0
    ensures MoveEvents([], ms, n) == []
  {}

  lemma OneMove(h: Hand, es: seq<Event>, before: seq<Point>, p: Point, t: nat)
    requires Acts(h, es) == [] && Strikes(h, es) == [] && Moves(es) == before
    requires After(h, es) == h.(at := After(h, es).at)
    ensures Of(h, es + [Event(Move(p), t)]) == Trace(h.(at := Some(p)), [], [], before + [p])
  {
    hide After, Acts, Strikes, Moves;
    OfConcat(h, es, [Event(Move(p), t)]);
    One(After(h, es), Event(Move(p), t));
  }

  lemma {:induction false} ClicksBetween(h: Hand, button: nat, count: nat)
    requires count >= 1
    ensures Of(h, ClickEvents(button, count)) ==
            Trace(h, Times(count - 1, [Act(Button(button, false), h), Act(Button(button, true), h)]), [], [])
  {
    hide After, Acts, Strikes, Moves;
    if count == 1 {
      Nothing(h);
    } else {
      var (up, down) := (Event(Button(button, false), (count - 2) * CLICK_US),
                         Event(Button(button, true), (count - 1) * CLICK_US));
      ClicksBetween(h, button, count - 1);
      OneMore(h, ClickEvents(button, count - 1), up, down);
    }
  }

  // A release and a press after something that leaves the hand as it was.
  lemma OneMore(h: Hand, before: seq<Event>, up: Event, down: Event)
    requires up.what.Button? && down.what.Button? && After(h, before) == h
    ensures Of(h, before + [up] + [down]) == Then(Of(h, before), Trace(h, [Act(up.what, h), Act(down.what, h)], [], []))
  {
    hide After, Acts, Strikes, Moves;
    OfConcat(h, before, [up]);
    OfConcat(h, before + [up], [down]);
    One(h, up);
    One(h, down);
    Append(Acts(h, before), Act(up.what, h), Act(down.what, h));
  }

  lemma Append<T>(s: seq<T>, a: T, b: T)
    ensures s + [a] + [b] == s + [a, b]
  {}

  lemma {:induction false} NotchesDo(h: Hand, axis: nat, sign: int, count: nat)
    ensures Of(h, WheelEvents(axis, sign, count)) == Trace(h, Times(count, [Act(Scroll(axis, sign), h)]), [], [])
  {
    hide After, Acts, Strikes, Moves;
    if count == 0 {
      Nothing(h);
    } else {
      var e := Event(Scroll(axis, sign), (count - 1) * NOTCH_US);
      NotchesDo(h, axis, sign, count - 1);
      OfConcat(h, WheelEvents(axis, sign, count - 1), [e]);
      One(h, e);
      assert WheelEvents(axis, sign, count) == WheelEvents(axis, sign, count - 1) + [e];
    }
  }

  // A rotation of the repeated pairs: the first press and the last release belong to them.
  lemma {:induction false} Rotated<T>(n: nat, a: T, b: T)
    ensures [a] + Times(n, [b, a]) + [b] == Times(n + 1, [a, b])
  {
    if n > 0 {
      Rotated(n - 1, a, b);
      assert [a] + Times(n, [b, a]) + [b] == [a] + Times(n - 1, [b, a]) + [b] + [a, b];
    }
  }

  // Any stretch of events with modifiers around it and the pointer put in place first.
  lemma Surrounded(at: Option<Point>, p: Point, mods: seq<nat>, mid: seq<Event>, t: nat, acts: seq<Act>,
                   last: Point, moves: seq<Point>)
    requires Of(Hand(Some(p), Downed(mods)), mid) == Trace(Hand(Some(last), Downed(mods)), acts, [], moves)
    ensures Of(Hand(at, {}), [Event(Move(p), 0)] + Downs(mods, 0) + mid + Ups(mods, t)) ==
            Trace(Hand(Some(last), {}), acts, Struck(mods), [p] + moves)
  {
    hide After, Acts, Strikes, Moves, Downs, Ups, Struck, Downed;
    var first := Event(Move(p), 0);
    One(Hand(at, {}), first);
    DownsDo(Some(p), mods, 0);
    UpsDo(Hand(Some(last), Downed(mods)), mods, t);
    OfConcat(Hand(at, {}), [first], Downs(mods, 0));
    OfConcat(Hand(at, {}), [first] + Downs(mods, 0), mid);
    OfConcat(Hand(at, {}), [first] + Downs(mods, 0) + mid, Ups(mods, t));
    assert Downed(mods) - Downed(mods) == {};
  }

  // ---- What each gesture does, wherever the pointer was, with no key down ----

  lemma MoveDoes(m: Keymap, g: Gesture, at: Option<Point>)
    requires g.MoveTo?
    ensures Of(Hand(at, {}), Events(m, g)) == Trace(Hand(Some(g.p), {}), [], [], [g.p])
  {
    One(Hand(at, {}), Event(Move(g.p), 0));
  }

  // The button goes down and up so many times, at the point and with the modifiers down.
  lemma ClicksDo(m: Keymap, g: Gesture, at: Option<Point>)
    requires Performable(m, g) && g.Clicks?
    ensures
      var hand := Hand(Some(g.p), Downed(g.mods));
      Of(Hand(at, {}), Events(m, g)) ==
        Trace(Hand(Some(g.p), {}),
              Times(g.count, [Act(Button(g.button, true), hand), Act(Button(g.button, false), hand)]),
              Struck(g.mods), [g.p])
  {
    hide After, Acts, Strikes, Moves;
    var hand := Hand(Some(g.p), Downed(g.mods));
    var (down, up) := (Event(Button(g.button, true), 0), Event(Button(g.button, false), Finish(g)));
    var between := ClickEvents(g.button, g.count);
    One(hand, down);
    One(hand, up);
    ClicksBetween(hand, g.button, g.count);
    OfConcat(hand, [down], between);
    OfConcat(hand, [down] + between, [up]);
    Rotated(g.count - 1, Act(down.what, hand), Act(up.what, hand));
    var acts := Times(g.count, [Act(down.what, hand), Act(up.what, hand)]);
    Surrounded(at, g.p, g.mods, [down] + between + [up], Finish(g), acts, g.p, []);
    Regroup([Event(Move(g.p), 0)], Downs(g.mods, 0), [down], between, [up], Ups(g.mods, Finish(g)));
    assert [g.p] + [] == [g.p];
  }

  lemma Regroup(a: seq<Event>, b: seq<Event>, c: seq<Event>, d: seq<Event>, e: seq<Event>, f: seq<Event>)
    ensures a + b + c + d + e + f == a + b + (c + d + e) + f
  {}

  // The button goes down at the start and up where the path ends, with the modifiers down, and
  // the pointer visits every point of the path in between.
  lemma DragDoes(m: Keymap, g: Gesture, at: Option<Point>)
    requires Performable(m, g) && g.Drag?
    ensures
      var last := g.path[|g.path| - 1];
      Of(Hand(at, {}), Events(m, g)) ==
        Trace(Hand(Some(last), {}),
              [Act(Button(g.button, true), Hand(Some(g.start), Downed(g.mods))),
               Act(Button(g.button, false), Hand(Some(last), Downed(g.mods)))],
              Struck(g.mods), [g.start] + g.path)
  {
    hide After, Acts, Strikes, Moves;
    var last := g.path[|g.path| - 1];
    var (before, after) := (Hand(Some(g.start), Downed(g.mods)), Hand(Some(last), Downed(g.mods)));
    var (down, up) := (Event(Button(g.button, true), 0), Event(Button(g.button, false), Finish(g)));
    var path := PathEvents(g.path, g.ms);
    One(before, down);
    One(after, up);
    PathDo(before, g.path, g.ms, |g.path|);
    OfConcat(before, [down], path);
    OfConcat(before, [down] + path, [up]);
    Surrounded(at, g.start, g.mods, [down] + path + [up], Finish(g), [Act(down.what, before), Act(up.what, after)],
      last, g.path);
    Regroup([Event(Move(g.start), 0)], Downs(g.mods, 0), [down], path, [up], Ups(g.mods, Finish(g)));
  }

  // Every notch at the point and with the modifiers down.
  lemma WheelDoes(m: Keymap, g: Gesture, at: Option<Point>)
    requires Performable(m, g) && g.Wheel?
    ensures Of(Hand(at, {}), Events(m, g)) ==
            Trace(Hand(Some(g.p), {}),
                  Times(g.count, [Act(Scroll(g.axis, g.sign), Hand(Some(g.p), Downed(g.mods)))]),
                  Struck(g.mods), [g.p])
  {
    hide After, Acts, Strikes, Moves;
    var hand := Hand(Some(g.p), Downed(g.mods));
    NotchesDo(hand, g.axis, g.sign, g.count);
    Surrounded(at, g.p, g.mods, WheelEvents(g.axis, g.sign, g.count), Finish(g),
      Times(g.count, [Act(Scroll(g.axis, g.sign), hand)]), g.p, []);
    assert [g.p] + [] == [g.p];
  }

  lemma {:induction false} NetTurn(n: nat, axis: nat, sign: int, hand: Hand, other: nat)
    ensures Turned(Times(n, [Act(Scroll(axis, sign), hand)]), other) == if other == axis then n * sign else 0
  {
    if n > 0 {
      NetTurn(n - 1, axis, sign, hand, other);
      TurnedConcat(Times(n - 1, [Act(Scroll(axis, sign), hand)]), [Act(Scroll(axis, sign), hand)], other);
      assert [Act(Scroll(axis, sign), hand)][1..] == [];
    }
  }

  lemma {:induction false} TurnedConcat(a: seq<Act>, b: seq<Act>, axis: nat)
    ensures Turned(a + b, axis) == Turned(a, axis) + Turned(b, axis)
    decreases |a|
  {
    if a == [] {
      assert a + b == b;
    } else {
      assert (a + b)[1..] == a[1..] + b;
      TurnedConcat(a[1..], b, axis);
    }
  }

  // Each key goes down on top of those before it, and all come up again.
  lemma ChordDoes(m: Keymap, g: Gesture, at: Option<Point>)
    requires g.Chord? && Performable(m, g)
    ensures Of(Hand(at, {}), Events(m, g)) == Trace(Hand(at, {}), [], Struck(g.keys), [])
  {
    ChordDo(at, g.keys, 0);
  }

  // The chords of a text, one character after another.
  function TextStrikes(m: Keymap, cps: seq<nat>): seq<(nat, set<nat>)>
    requires Typable(m, cps)
  {
    if cps == [] then []
    else TextStrikes(m, cps[..|cps| - 1]) + Struck(Keystroke(m, Character(cps[|cps| - 1]), []).value)
  }

  lemma {:induction false} TextDoes(m: Keymap, cps: seq<nat>, gates: bool, t: nat, at: Option<Point>)
    requires Typable(m, cps)
    ensures Of(Hand(at, {}), TextEvents(m, cps, gates, t)) == Trace(Hand(at, {}), [], TextStrikes(m, cps), [])
    decreases |cps|
  {
    hide After, Acts, Strikes, Moves, Keystroke;
    var h := Hand(at, {});
    if cps == [] {
      Nothing(h);
    } else {
      var (before, cp) := (cps[..|cps| - 1], cps[|cps| - 1]);
      TextDoes(m, before, gates, t, at);
      CharacterDoes(m, cp, gates, t, at);
      OfConcat(h, TextEvents(m, before, gates, t), CharacterEvents(m, cp, gates, t));
    }
  }

  lemma CharacterDoes(m: Keymap, cp: nat, gates: bool, t: nat, at: Option<Point>)
    requires Keystroke(m, Character(cp), []).Some?
    ensures Of(Hand(at, {}), CharacterEvents(m, cp, gates, t)) ==
            Trace(Hand(at, {}), [], Struck(Keystroke(m, Character(cp), []).value), [])
  {
    hide After, Acts, Strikes, Moves, Keystroke;
    var keys := Keystroke(m, Character(cp), []).value;
    ChordDo(at, keys, t);
    if gates {
      GateFirst(Hand(at, {}), t, ChordEvents(keys, t));
    } else {
      assert [] + ChordEvents(keys, t) == ChordEvents(keys, t);
    }
  }

  lemma GateFirst(h: Hand, t: nat, es: seq<Event>)
    ensures Of(h, [Event(Gate, t)] + es) == Of(h, es)
  {
    OfConcat(h, [Event(Gate, t)], es);
    One(h, Event(Gate, t));
  }

  function FillStrikes(m: Keymap, fill: Fill): seq<(nat, set<nat>)>
    requires fill.Typing? ==> Typable(m, fill.cps)
  {
    match fill
    case Erasing(keys) => Struck(keys)
    case Typing(cps) => TextStrikes(m, cps)
  }

  // One click of the left button at the point, then the chord that selects, then the filling.
  lemma ReplaceDoes(m: Keymap, g: Gesture, at: Option<Point>)
    requires Performable(m, g) && g.Replace?
    ensures
      var hand := Hand(Some(g.p), {});
      Of(Hand(at, {}), Events(m, g)) ==
        Trace(hand, [Act(Button(272, true), hand), Act(Button(272, false), hand)],
              Struck(g.select) + FillStrikes(m, g.fill), [g.p])
  {
    hide After, Acts, Strikes, Moves, Struck, ClickInto, GatedChord, FillEvents, FillStrikes;
    var (from, hand) := (Hand(at, {}), Hand(Some(g.p), {}));
    IntoDoes(at, g.p);
    GatedDoes(Some(g.p), g.select);
    FillDoes(m, g.fill, Some(g.p));
    OfConcat(from, ClickInto(g.p), GatedChord(g.select));
    OfConcat(from, ClickInto(g.p) + GatedChord(g.select), FillEvents(m, g.fill));
  }

  lemma FillDoes(m: Keymap, fill: Fill, at: Option<Point>)
    requires fill.Typing? ==> Typable(m, fill.cps)
    ensures Of(Hand(at, {}), FillEvents(m, fill)) == Trace(Hand(at, {}), [], FillStrikes(m, fill), [])
  {
    match fill
    case Erasing(keys) => GatedDoes(at, keys);
    case Typing(cps) => TextDoes(m, cps, true, SETTLE_US, at);
  }

  lemma GatedDoes(at: Option<Point>, keys: seq<nat>)
    ensures Of(Hand(at, {}), GatedChord(keys)) == Trace(Hand(at, {}), [], Struck(keys), [])
  {
    hide After, Acts, Strikes, Moves;
    ChordDo(at, keys, SETTLE_US);
    GateFirst(Hand(at, {}), SETTLE_US, ChordEvents(keys, SETTLE_US));
  }

  lemma IntoDoes(at: Option<Point>, p: Point)
    ensures
      var hand := Hand(Some(p), {});
      Of(Hand(at, {}), ClickInto(p)) ==
        Trace(hand, [Act(Button(272, true), hand), Act(Button(272, false), hand)], [], [p])
  {
    hide After, Acts, Strikes, Moves;
    var (from, hand) := (Hand(at, {}), Hand(Some(p), {}));
    var (move, down, up) := (Event(Move(p), 0), Event(Button(272, true), 0), Event(Button(272, false), 0));
    One(from, move);
    One(hand, down);
    One(hand, up);
    OfConcat(hand, [down], [up]);
    GateFirst(hand, 0, [down] + [up]);
    OfConcat(from, [move], [Event(Gate, 0)] + ([down] + [up]));
    GateFirst(from, 0, [move] + ([Event(Gate, 0)] + ([down] + [up])));
    assert ClickInto(p) == [Event(Gate, 0)] + ([move] + ([Event(Gate, 0)] + ([down] + [up])));
  }

  // ---- From the line to the screen ----

  // A wheel line scrolls by its count in its direction, with the pointer at its point, and not at
  // all across it.
  lemma WheelLineScrolls(w: Writer, word: string, axis: nat, sign: int, count: nat, p: Point, at: Option<Point>)
    requires 1 <= count <= 20 && w.Fits(p)
    requires (word == "up" && axis == 0 && sign == -1) || (word == "down" && axis == 0 && sign == 1)
             || (word == "left" && axis == 1 && sign == -1) || (word == "right" && axis == 1 && sign == 1)
    ensures
      var g := Meaning(w.screen, Joined(["W", word, Numeral(count)] + w.At(p)));
      && g.Some? && Performable(w.screen.keymap, g.value)
      && var acts := Acts(Hand(at, {}), Events(w.screen.keymap, g.value));
         && Turned(acts, axis) == count * sign && Turned(acts, 1 - axis) == 0
         && (forall i :: 0 <= i < |acts| ==> acts[i].hand == Hand(Some(p), {}))
  {
    hide Meaning, Joined, Acts, After, Strikes, Moves, Turned, Writer.Fits, Writer.At;
    var g := Wheel([], axis, sign, count, p);
    WReads(w, axis, sign, count, p);
    assert ["W"] + WheelWords(w, axis, sign, count, p) == ["W", word, Numeral(count)] + w.At(p);
    WheelDoes(w.screen.keymap, g, at);
    var act := Act(Scroll(axis, sign), Hand(Some(p), Downed([])));
    NetTurn(count, axis, sign, act.hand, axis);
    NetTurn(count, axis, sign, act.hand, 1 - axis);
    TimesAll(count, act);
    assert Downed([]) == {};
  }

  lemma {:induction false} TimesAll<T>(n: nat, x: T)
    ensures |Times(n, [x])| == n && forall i :: 0 <= i < n ==> Times(n, [x])[i] == x
  {
    if n > 0 { TimesAll(n - 1, x); }
  }
}
