// plan() of guardian.c: reads an action line and fills the table of events.
module Planner {
  import opened Options
  import opened Words
  import opened Decimals
  import opened Keymaps
  import opened Gestures
  import opened Grammar
  import opened Utf8
  import opened Deadline

  const MAX_STEPS: nat := 4096

  method ParseInteger(from: Rest, lo: nat, hi: nat) returns (r: Parsed<nat>)
    requires hi <= UINT64_MAX
    ensures r == Integer(from, lo, hi)
  {
    match Token(from) {
      case Fail => return Fail;
      case Got(word, rest) =>
        var value, i := 0, 0;
        while i < |word|
          invariant 0 <= i <= |word| && Digital(word[..i]) && value == Decimal(word[..i]) <= UINT64_MAX
        {
          if !('0' <= word[i] <= '9') {
            return Fail;
          }
          var d := word[i] as nat - '0' as nat;
          assert word[..i + 1][..i] == word[..i];
          // The 64-bit guard refuses only what is out of range anyway.
          if value > (UINT64_MAX - d) / 10 {
            if Digital(word) { DecimalGrows(word, i + 1); }
            return Fail;
          }
          value := value * 10 + d;
          i := i + 1;
        }
        assert word[..i] == word;
        if value < lo || value > hi {
          return Fail;
        }
        r := Got(value, rest);
    }
  }

  method Contains(mods: seq<nat>, key: nat) returns (r: bool)
    ensures r == (key in mods)
  {
    var j := 0;
    while j < |mods|
      invariant 0 <= j <= |mods| && key !in mods[..j]
    {
      if key == mods[j] {
        return true;
      }
      j := j + 1;
    }
    r := false;
  }

  method ParseModifiers(m: Keymap, from: Rest) returns (r: Parsed<seq<nat>>)
    ensures r == Modifiers(m, from)
  {
    hide Token, Modifier;
    var n := ParseInteger(from, 0, 4);
    match n {
      case Fail => return Fail;
      case Got(count, rest) =>
        var mods: seq<nat>, rest' := [], rest;
        var i := 0;
        while i < count
          invariant 0 <= i <= count && |mods| == i
          invariant Modifiers(m, from) == ModifierNames(m, rest', count - i, mods)
        {
          match Token(rest') {
            case Fail => return Fail;
            case Got(name, more) =>
              var key := FindModifier(m, name);
              var repeated := Contains(mods, key);
              if key == 0 || repeated {
                return Fail;
              }
              mods, rest' := mods + [key], more;
          }
          i := i + 1;
        }
        r := Got(mods, rest');
    }
  }

  method ParseHeader(m: Keymap, kind: char, mods: seq<nat>, from: Rest) returns (r: Parsed<Header>)
    ensures r == HeaderOf(m, kind, mods, from)
  {
    hide Modifiers, Integer;
    if kind == 'M' {
      return Got(Header(0, 1, 0, mods), from);
    }
    var button := ParseInteger(from, 272, 279);
    if button.Fail? {
      return Fail;
    }
    var h, rest := Header(button.value, if kind == 'Q' then 2 else 1, 0, mods), button.rest;
    if kind == 'D' || kind == 'L' {
      var count := ParseInteger(rest, 2, 256);
      if count.Fail? {
        return Fail;
      }
      h, rest := h.(count := count.value), count.rest;
    }
    if kind == 'L' {
      var ms := ParseInteger(rest, 0, 1000);
      if ms.Fail? {
        return Fail;
      }
      h, rest := h.(ms := ms.value), ms.rest;
    }
    if kind == 'V' {
      var count := ParseInteger(rest, 1, 3);
      if count.Fail? {
        return Fail;
      }
      var named := ParseModifiers(m, count.rest);
      if named.Fail? {
        return Fail;
      }
      h, rest := h.(count := count.value, mods := named.value), named.rest;
    }
    r := Got(h, rest);
  }

  // The codes of a K line: each one new to the chord.
  method ParseCodes(from: Rest) returns (r: Parsed<seq<nat>>)
    ensures r == match Integer(from, 1, 16) case Fail => Fail case Got(count, rest) => Codes(rest, count, [])
  {
    var n := ParseInteger(from, 1, 16);
    match n {
      case Fail => return Fail;
      case Got(count, rest) =>
        var c, rest' := [], rest;
        var i := 0;
        while i < count
          invariant 0 <= i <= count && |c| == i && Fresh(c)
          invariant Codes(rest, count, []) == Codes(rest', count - i, c)
        {
          var k := ParseInteger(rest', 1, 247);
          if k.Fail? {
            return Fail;
          }
          var before := |c|;
          var more := ChordAdd(c, k.value);
          if more.None? || |more.value| == before {
            return Fail;
          }
          FreshSnoc(c, k.value);
          c, rest' := more.value, k.rest;
          i := i + 1;
        }
        r := Got(c, rest');
    }
  }

  lemma Take(base: seq<Event>, es: seq<Event>, i: nat)
    requires i < |es|
    ensures base + es[..i] + [es[i]] == base + es[..i + 1]
  {}

  lemma TakeAll(base: seq<Event>, es: seq<Event>)
    ensures base + es[..|es|] == base + es && base + es[..0] == base
  {}

  lemma Associate(a: seq<Event>, b: seq<Event>, c: seq<Event>)
    ensures a + b + c == a + (b + c)
  {}

  // A line with a meaning that can be finished within the lease, in unsigned 64-bit
  // microseconds: its last due time, 2 ms for each event, and 100 ms to spare.
  ghost predicate Accepted(screen: Screen, line: string, nowUs: nat, leaseUs: nat) {
    MeaningPerformable(screen, line);
    var g := Meaning(screen, line);
    g.Some? && (nowUs + Finish(g.value) + |Events(screen.keymap, g.value)| * 2000 + 100000) % TWO64 < leaseUs
  }

  class Plan {
    const screen: Screen
    const events: array<Event>
    var planned: nat

    ghost predicate Valid()
      reads this
    {
      events.Length == MAX_STEPS && planned <= MAX_STEPS
    }

    ghost function Planned(): seq<Event>
      reads this, events
      requires Valid()
    {
      events[..planned]
    }

    constructor (screen: Screen)
      ensures Valid() && this.screen == screen && Planned() == [] && fresh(events)
    {
      this.screen := screen;
      events := new Event[MAX_STEPS](_ => Event(Gate, 0));
      planned := 0;
    }

    method Add(what: What, at: nat) returns (ok: bool)
      requires Valid()
      modifies this, events
      ensures Valid() && ok == (old(planned) < MAX_STEPS)
      ensures Planned() == if ok then old(Planned()) + [Event(what, at)] else old(Planned())
    {
      if planned == MAX_STEPS {
        return false;
      }
      events[planned] := Event(what, at);
      planned := planned + 1;
      ok := true;
    }

    // modifier_plan()
    method ModifierPlan(keys: seq<nat>, down: bool, at: nat) returns (ok: bool)
      requires Valid() && planned + |keys| <= MAX_STEPS
      modifies this, events
      ensures Valid() && ok && Planned() == old(Planned()) + if down then Downs(keys, at) else Ups(keys, at)
    {
      ghost var base := Planned();
      ghost var es := if down then Downs(keys, at) else Ups(keys, at);
      var i := 0;
      TakeAll(base, es);
      while i < |keys|
        invariant 0 <= i <= |keys| && Valid() && Planned() == base + es[..i]
      {
        Take(base, es, i);
        var added := Add(Key(keys[if down then i else |keys| - 1 - i], down), at);
        if !added {
          return false;
        }
        i := i + 1;
      }
      ok := true;
    }

    // chord_plan(): down in order, up in reverse.
    method ChordPlan(c: seq<nat>, at: nat) returns (ok: bool)
      requires Valid() && planned + 2 * |c| <= MAX_STEPS
      modifies this, events
      ensures Valid() && ok && Planned() == old(Planned()) + ChordEvents(c, at)
    {
      hide Downs, Ups;
      ChordLength(c, at);
      ok := ModifierPlan(c, true, at);
      if ok {
        ok := ModifierPlan(c, false, at);
        Associate(old(Planned()), Downs(c, at), Ups(c, at));
      }
    }

    static lemma ChordLength(c: seq<nat>, at: nat)
      ensures |Downs(c, at)| == |c| && |Ups(c, at)| == |c|
    {}

    method ParsePoint(from: Rest) returns (r: Parsed<Point>)
      ensures r == PointAt(screen, from)
    {
      hide Token;
      var x := Token(from);
      if x.Fail? {
        return Fail;
      }
      var px := screen.number(x.value);
      var y := Token(x.rest);
      if y.Fail? {
        return Fail;
      }
      var py := screen.number(y.value);
      if px.None? || py.None? {
        return Fail;
      }
      if 0.0 <= px.value < screen.width as real && 0.0 <= py.value < screen.height as real {
        return Got(Point(px.value, py.value), y.rest);
      }
      r := Fail;
    }

    // The points of a drag after its first one, planned as they are read.
    method PathPlan(from: Rest, count: nat, ms: nat) returns (path: Parsed<seq<Point>>, at: nat)
      requires Valid() && 2 <= count <= 256 && planned + count <= MAX_STEPS
      modifies this, events
      ensures Valid() && path == Points(screen, from, count - 1, [])
      ensures path.Got? ==> Planned() == old(Planned()) + PathEvents(path.value, ms) && at == ms * 1000
    {
      hide PointAt, Due, MoveEvents;
      ghost var base := Planned();
      var points, rest := [], from;
      var i := 1;
      at := 0;
      NoMoves(base, ms, count - 1);
      while i < count
        invariant 1 <= i <= count && |points| == i - 1 && Valid()
        invariant Points(screen, from, count - 1, []) == Points(screen, rest, count - i, points)
        invariant |Planned()| == |base| + i - 1 && Planned() == base + MoveEvents(points, ms, count - 1)
        invariant i > 1 ==> at == Due(ms, i - 1, count - 1)
      {
        at := Due(ms, i, count - 1);
        var p := ParsePoint(rest);
        if p.Fail? {
          return Fail, at;
        }
        var added := Add(Move(p.value), at);
        if !added {
          return Fail, at;
        }
        MoveSnoc(points, p.value, ms, count - 1);
        Associate(base, MoveEvents(points, ms, count - 1), [Event(Move(p.value), at)]);
        points, rest := points + [p.value], p.rest;
        i := i + 1;
      }
      LastDue(ms, count - 1);
      path := Got(points, rest);
    }

    static lemma NoMoves(base: seq<Event>, ms: nat, n: nat)
      requires n > 0
      ensures base + MoveEvents([], ms, n) == base
    {}

    // The releases and presses between the first press and the last release.
    method ClicksPlan(button: nat, count: nat) returns (ok: bool, at: nat)
      requires Valid() && 1 <= count <= 3 && planned + 2 * count <= MAX_STEPS
      modifies this, events
      ensures Valid() && ok && at == (count - 1) * CLICK_US
      ensures Planned() == old(Planned()) + ClickEvents(button, count)
    {
      ghost var base := Planned();
      var i := 1;
      at := 0;
      assert base + [] == base;
      while i < count
        invariant 1 <= i <= count && Valid() && at == (i - 1) * CLICK_US
        invariant Planned() == base + ClickEvents(button, i) && |Planned()| == |base| + 2 * (i - 1)
      {
        ghost var before := ClickEvents(button, i);
        ok := Add(Button(button, false), at);
        if !ok {
          return;
        }
        Associate(base, before, [Event(Button(button, false), at)]);
        ghost var released := before + [Event(Button(button, false), at)];
        at := at + CLICK_US;
        ok := Add(Button(button, true), at);
        if !ok {
          return;
        }
        Associate(base, released, [Event(Button(button, true), at)]);
        i := i + 1;
      }
      ok := true;
    }

    // The scrolls of a wheel gesture, 30 ms apart.
    method NotchesPlan(axis: nat, sign: int, count: nat) returns (ok: bool, at: nat)
      requires Valid() && 1 <= count <= 20 && planned + count <= MAX_STEPS
      modifies this, events
      ensures Valid() && ok && at == (count - 1) * NOTCH_US
      ensures Planned() == old(Planned()) + WheelEvents(axis, sign, count)
    {
      ghost var base := Planned();
      ghost var es := WheelEvents(axis, sign, count);
      TakeAll(base, es);
      var i := 0;
      at := 0;
      while i < count
        invariant 0 <= i <= count && Valid() && Planned() == base + es[..i]
        invariant i > 0 ==> at == (i - 1) * NOTCH_US
      {
        Take(base, es, i);
        at := i * NOTCH_US;
        ok := Add(Scroll(axis, sign), at);
        if !ok {
          return;
        }
        i := i + 1;
      }
      ok := true;
    }

    // The branch for M, P, Q, D, L and V.
    method PointerPlan(kind: char, mods: seq<nat>, from: Rest) returns (g: Parsed<Gesture>, at: nat)
      requires Valid() && planned == 0 && PointerVerb(kind) && ModsOk(mods)
      modifies this, events
      ensures Valid() && g == Pointer(screen, kind, mods, from)
      ensures g.Got? ==>
        Performable(screen.keymap, g.value) && Planned() == Events(screen.keymap, g.value) && at == Finish(g.value)
    {
      hide HeaderOf, PointAt, Stroke, InRange;
      at := 0;
      HeaderInRange(screen.keymap, kind, mods, from);
      var h := ParseHeader(screen.keymap, kind, mods, from);
      if h.Fail? {
        return Fail, at;
      }
      var p := ParsePoint(h.rest);
      if p.Fail? {
        return Fail, at;
      }
      var ok := Add(Move(p.value), 0);
      if !ok {
        return Fail, at;
      }
      if kind == 'M' {
        return Got(MoveTo(p.value), p.rest), at;
      }
      g, at := StrokePlan(kind, h.value, p.value, p.rest);
    }

    method StrokePlan(kind: char, h: Header, p: Point, from: Rest) returns (g: Parsed<Gesture>, at: nat)
      requires Valid() && kind != 'M' && InRange(kind, h) && Planned() == [Event(Move(p), 0)]
      modifies this, events
      ensures Valid() && g == Stroke(screen, kind, h, p, from)
      ensures g.Got? ==>
        Performable(screen.keymap, g.value) && Planned() == Events(screen.keymap, g.value) && at == Finish(g.value)
    {
      hide Points, Downs, Ups, PathEvents, ClickEvents;
      StrokePerformable(screen, kind, h, p, from);
      at := 0;
      var ok := PressPlan(h, p);
      if !ok {
        return Fail, at;
      }
      if kind == 'D' || kind == 'L' {
        var path: Parsed<seq<Point>>;
        path, at := PathPlan(from, h.count, h.ms);
        if path.Fail? {
          return Fail, at;
        }
        PointsCount(screen, from, h.count - 1, []);
        PathLength(path.value, h.ms);
        ok := LiftPlan(h, at);
        g := if ok then Got(Drag(h.mods, h.button, p, path.value, h.ms), path.rest) else Fail;
      } else {
        ok, at := ClicksPlan(h.button, h.count);
        if !ok {
          return Fail, at;
        }
        ClicksWithin(h.button, h.count);
        ok := LiftPlan(h, at);
        g := if ok then Got(Clicks(h.mods, h.button, p, h.count), from) else Fail;
      }
    }

    method PressPlan(h: Header, p: Point) returns (ok: bool)
      requires Valid() && ModsOk(h.mods) && Planned() == [Event(Move(p), 0)]
      modifies this, events
      ensures Valid() && ok && |Planned()| <= 6
      ensures Planned() == [Event(Move(p), 0)] + Downs(h.mods, 0) + [Event(Button(h.button, true), 0)]
    {
      ChordLength(h.mods, 0);
      ok := ModifierPlan(h.mods, true, 0);
      if ok { ok := Add(Button(h.button, true), 0); }
    }

    method LiftPlan(h: Header, at: nat) returns (ok: bool)
      requires Valid() && ModsOk(h.mods) && planned <= 1000
      modifies this, events
      ensures Valid() && ok && Planned() == old(Planned()) + [Event(Button(h.button, false), at)] + Ups(h.mods, at)
    {
      ok := Add(Button(h.button, false), at);
      if ok { ok := ModifierPlan(h.mods, false, at); }
    }

    // The branch for W, and for Y.
    method WheelPlan(mods: seq<nat>, from: Rest) returns (g: Parsed<Gesture>, at: nat)
      requires Valid() && planned == 0 && ModsOk(mods)
      modifies this, events
      ensures Valid() && g == WheelOf(screen, mods, from)
      ensures g.Got? ==>
        Performable(screen.keymap, g.value) && Planned() == Events(screen.keymap, g.value) && at == Finish(g.value)
    {
      hide Token, Integer, PointAt, Downs, Ups, WheelEvents;
      at := 0;
      var direction := Token(from);
      if direction.Fail? {
        return Fail, at;
      }
      IntegerRange(direction.rest, 1, 20);
      var count := ParseInteger(direction.rest, 1, 20);
      if count.Fail? {
        return Fail, at;
      }
      var p := ParsePoint(count.rest);
      if p.Fail? {
        return Fail, at;
      }
      var d := Direction(direction.value);
      if d.None? {
        return Fail, at;
      }
      var ok;
      ok, at := ScrollPlan(mods, d.value.0, d.value.1, count.value, p.value);
      g := if ok then Got(Wheel(mods, d.value.0, d.value.1, count.value, p.value), p.rest) else Fail;
    }

    static lemma IntegerRange(from: Rest, lo: nat, hi: nat)
      ensures Integer(from, lo, hi).Got? ==> lo <= Integer(from, lo, hi).value <= hi
    {}

    method ScrollPlan(mods: seq<nat>, axis: nat, sign: int, count: nat, p: Point) returns (ok: bool, at: nat)
      requires Valid() && planned == 0 && ModsOk(mods) && 1 <= count <= 20
      modifies this, events
      ensures Valid() && ok && at == (count - 1) * NOTCH_US
      ensures Planned() == [Event(Move(p), 0)] + Downs(mods, 0) + WheelEvents(axis, sign, count) + Ups(mods, at)
    {
      hide Downs, Ups, WheelEvents;
      at := 0;
      ChordLength(mods, 0);
      ok := Add(Move(p), 0);
      if !ok {
        return;
      }
      ok := ModifierPlan(mods, true, 0);
      if !ok {
        return;
      }
      WheelLength(axis, sign, count);
      ok, at := NotchesPlan(axis, sign, count);
      if !ok {
        return;
      }
      ok := ModifierPlan(mods, false, at);
    }

    static lemma WheelLength(axis: nat, sign: int, count: nat)
      ensures |WheelEvents(axis, sign, count)| == count
    {}

    // The branches for K and J.
    method KeysPlan(kind: char, from: Rest) returns (g: Parsed<Gesture>)
      requires Valid() && planned == 0
      modifies this, events
      ensures Valid() && g == ChordOf(screen.keymap, kind, from)
      ensures g.Got? ==> Performable(screen.keymap, g.value) && Planned() == Events(screen.keymap, g.value)
    {
      hide Codes, NamedChord, Token, Integer, ChordEvents;
      ChordPerformable(screen.keymap, kind, from);
      var c, rest;
      if kind == 'K' {
        var codes := ParseCodes(from);
        if codes.Fail? {
          return Fail;
        }
        c, rest := codes.value, codes.rest;
      } else {
        var name := Token(from);
        if name.Fail? || |name.value| > 128 {
          return Fail;
        }
        var chord := FindNamedChord(screen.keymap, name.value);
        if chord.None? {
          return Fail;
        }
        c, rest := chord.value, name.rest;
      }
      var ok := ChordPlan(c, 0);
      assert [] + ChordEvents(c, 0) == ChordEvents(c, 0);
      g := if ok then Got(Chord(c), rest) else Fail;
    }

    // text_plan(): decodes and plans one character after the other.
    method TextPlan(text: string, gates: bool, at: nat) returns (cps: Option<seq<nat>>)
      requires Valid() && planned <= 1000
      modifies this, events
      ensures Valid() && cps == TextOf(screen.keymap, text)
      ensures cps.Some? ==> Planned() == old(Planned()) + TextEvents(screen.keymap, cps.value, gates, at)
    {
      var bytes := ParseHex(text);
      if bytes.None? {
        assert forall c :: !Spells(text, c);
        return None;
      }
      cps := CharactersPlan(text, bytes.value, gates, at);
    }

    // The loop of text_plan() over the octets of the text.
    method CharactersPlan(text: string, bytes: seq<byte>, gates: bool, at: nat) returns (cps: Option<seq<nat>>)
      requires Valid() && planned <= 1000
      requires 0 < |text| <= 2 * MAX_TEXT && |text| % 2 == 0 && HexDigits(text) && bytes == HexBytes(text)
      modifies this, events
      ensures Valid() && cps == TextOf(screen.keymap, text)
      ensures cps.Some? ==> Planned() == old(Planned()) + TextEvents(screen.keymap, cps.value, gates, at)
    {
      hide HexBytes, HexDigits, CharacterEvents, TextEvents, Encode, EncodeAll, AllPrintable, Spells, Keystroke,
        TextOf, Typable;
      ghost var base := Planned();
      var done: seq<nat> := [];
      var pos, count := 0, 0;
      NothingSoFar(screen.keymap, base, gates, at);
      while pos < |bytes|
        invariant 0 <= pos <= |bytes| && |done| == count <= MAX_CHARACTERS
        invariant AllPrintable(done) && Typable(screen.keymap, done) && bytes[..pos] == EncodeAll(done)
        invariant Valid() && planned <= 1000 + 5 * count
          && Planned() == base + TextEvents(screen.keymap, done, gates, at)
      {
        assert bytes == EncodeAll(done) + bytes[pos..];
        count := count + 1;
        if count > MAX_CHARACTERS {
          TooLong(text, done, bytes[pos..], screen.keymap);
          return None;
        }
        var cp, next := DecodeOne(bytes, pos);
        if cp.None? {
          NotText(text, done, bytes[pos..], screen.keymap);
          return None;
        }
        EncodeSnoc(done, cp.value);
        assert bytes[..next] == bytes[..pos] + bytes[pos..next];
        var c := FindKeystroke(screen.keymap, Character(cp.value), []);
        if c.None? {
          assert bytes == EncodeAll(done + [cp.value]) + bytes[next..];
          NotTyped(text, done, cp.value, bytes[next..], screen.keymap);
          return None;
        }
        TypableSnoc(screen.keymap, done, cp.value);
        var ok := CharacterPlan(cp.value, c.value, gates, at);
        if !ok {
          return None;
        }
        Associate(base, TextEvents(screen.keymap, done, gates, at),
          CharacterEvents(screen.keymap, cp.value, gates, at));
        TextSnoc(screen.keymap, done, cp.value, gates, at);
        done, pos := done + [cp.value], next;
      }
      assert bytes[..pos] == bytes;
      Whole(text, done, screen.keymap);
      cps := Some(done);
    }

    static lemma NothingSoFar(m: Keymap, base: seq<Event>, gates: bool, at: nat)
      ensures Typable(m, []) && base + TextEvents(m, [], gates, at) == base
      ensures AllPrintable([]) && EncodeAll([]) == []
    {}

    static lemma Whole(text: string, done: seq<nat>, m: Keymap)
      requires 0 < |text| <= 2 * MAX_TEXT && |text| % 2 == 0 && HexDigits(text) && |done| <= MAX_CHARACTERS
      requires AllPrintable(done) && Typable(m, done) && HexBytes(text) == EncodeAll(done)
      ensures TextOf(m, text) == Some(done)
    {
      TextOfIs(m, text, done);
    }

    static lemma TypableSnoc(m: Keymap, done: seq<nat>, cp: nat)
      requires Typable(m, done) && Keystroke(m, Character(cp), []).Some?
      ensures Typable(m, done + [cp])
    {}

    static lemma TextSnoc(m: Keymap, done: seq<nat>, cp: nat, gates: bool, at: nat)
      requires Typable(m, done) && Keystroke(m, Character(cp), []).Some? && Typable(m, done + [cp])
      ensures TextEvents(m, done + [cp], gates, at) == TextEvents(m, done, gates, at)
        + CharacterEvents(m, cp, gates, at)
    {
      assert (done + [cp])[..|done|] == done;
    }

    // Why a text is refused: too many characters, octets that are none, or one without a key.
    static lemma TooLong(text: string, done: seq<nat>, s: seq<byte>, m: Keymap)
      requires HexDigits(text) && AllPrintable(done) && |done| >= MAX_CHARACTERS && s != []
        && HexBytes(text) == EncodeAll(done) + s
      ensures TextOf(m, text) == None
    {
      forall cps | AllPrintable(cps) && EncodeAll(cps) == HexBytes(text) ensures |cps| > MAX_CHARACTERS {
        Cancel(done, s, cps);
      }
    }

    static lemma NotText(text: string, done: seq<nat>, s: seq<byte>, m: Keymap)
      requires HexDigits(text) && AllPrintable(done) && s != [] && HexBytes(text) == EncodeAll(done) + s
      requires forall c: nat | Printable(c) :: !(Encode(c) <= s)
      ensures TextOf(m, text) == None
    {
      forall cps | AllPrintable(cps) ensures EncodeAll(cps) != HexBytes(text) {
        Unreadable(done, s, cps);
      }
    }

    static lemma NotTyped(text: string, done: seq<nat>, cp: nat, s: seq<byte>, m: Keymap)
      requires HexDigits(text) && AllPrintable(done + [cp]) && HexBytes(text) == EncodeAll(done + [cp]) + s
      requires Keystroke(m, Character(cp), []).None?
      ensures TextOf(m, text) == None
    {
      forall cps | Spells(text, cps) ensures !Typable(m, cps) {
        Cancel(done + [cp], s, cps);
        assert cps[|done|] == cp;
        assert cp in cps;
      }
    }

    method CharacterPlan(ghost cp: nat, c: seq<nat>, gates: bool, at: nat) returns (ok: bool)
      requires Valid() && planned <= MAX_STEPS - 5 && Keystroke(screen.keymap, Character(cp), []) == Some(c)
      modifies this, events
      ensures Valid() && ok && planned <= old(planned) + 5
      ensures Planned() == old(Planned()) + CharacterEvents(screen.keymap, cp, gates, at)
    {
      hide ChordEvents;
      ghost var base := Planned();
      CharacterWithin(screen.keymap, cp, gates, at);
      AtMostTwo(screen.keymap, cp);
      ok := true;
      if gates { ok := Add(Gate, at); }
      if !ok {
        return;
      }
      ghost var gate := if gates then [Event(Gate, at)] else [];
      assert Planned() == base + gate;
      ok := ChordPlan(c, at);
      Associate(base, gate, ChordEvents(c, at));
    }

    static lemma AtMostTwo(m: Keymap, cp: nat)
      ensures Keystroke(m, Character(cp), []).Some? ==> |Keystroke(m, Character(cp), []).value| <= 2
    {}

    method ParseHex(text: string) returns (r: Option<seq<byte>>)
      ensures r == if 0 < |text| <= 2 * MAX_TEXT && |text| % 2 == 0 && HexDigits(text) then Some(HexBytes(text))
        else None
    {
      if text == "" || |text| % 2 != 0 || |text| > 2 * MAX_TEXT {
        return None;
      }
      var bytes: seq<byte> := [];
      var i := 0;
      while i < |text| / 2
        invariant 0 <= i <= |text| / 2 && |bytes| == i
        invariant forall k :: 0 <= k < 2 * i ==> HexValue(text[k]).Some?
        invariant forall k ::
          0 <= k < i ==> bytes[k] == HexValue(text[2 * k]).value * 16 + HexValue(text[2 * k + 1]).value
      {
        var a, b := HexValue(text[2 * i]), HexValue(text[2 * i + 1]);
        if a.None? || b.None? {
          return None;
        }
        bytes := bytes + [a.value * 16 + b.value];
        i := i + 1;
      }
      assert HexDigits(text);
      assert forall k :: 0 <= k < i ==> bytes[k] == HexAt(text, k);
      assert bytes == HexBytes(text);
      r := Some(bytes);
    }

    method TypePlan(from: Rest) returns (g: Parsed<Gesture>)
      requires Valid() && planned == 0
      modifies this, events
      ensures Valid() && g == TypeOf(screen.keymap, from)
      ensures g.Got? ==> Performable(screen.keymap, g.value) && Planned() == Events(screen.keymap, g.value)
    {
      hide Token, Spells, TextOf, TextEvents;
      var text := Token(from);
      if text.Fail? {
        return Fail;
      }
      FillPerformable(screen.keymap, text.value);
      var cps := TextPlan(text.value, false, 0);
      if cps.None? {
        return Fail;
      }
      TextInRange(screen.keymap, text.value);
      assert [] + TextEvents(screen.keymap, cps.value, false, 0) == TextEvents(screen.keymap, cps.value, false, 0);
      g := Got(Type(cps.value), text.rest);
    }

    static lemma TextInRange(m: Keymap, text: string)
      ensures TextOf(m, text).Some? ==>
        1 <= |TextOf(m, text).value| <= MAX_CHARACTERS && AllPrintable(TextOf(m, text).value)
    {}

    // The branch for E: click into a field, select all of it, and type over it or erase it.
    method ReplacePlan(from: Rest) returns (g: Parsed<Gesture>)
      requires Valid() && planned == 0
      modifies this, events
      ensures Valid() && g == ReplaceOf(screen, from)
      ensures g.Got? ==> Performable(screen.keymap, g.value) && Planned() == Events(screen.keymap, g.value)
    {
      hide Token, PointAt, NamedChord, FillOf, ClickInto, GatedChord, FillEvents;
      ReplacePerformable(screen, from);
      var p := ParsePoint(from);
      if p.Fail? {
        return Fail;
      }
      var text := Token(p.rest);
      if text.Fail? {
        return Fail;
      }
      var select := FindNamedChord(screen.keymap, SELECT_ALL);
      if select.None? {
        return Fail;
      }
      SelectOk(screen.keymap);
      var ok := ClickPlan(p.value);
      if !ok {
        return Fail;
      }
      ok := GatedPlan(select.value);
      if !ok {
        return Fail;
      }
      var fill := FillPlan(text.value);
      g := if fill.Some? then Got(Replace(p.value, select.value, fill.value), text.rest) else Fail;
    }

    static lemma SelectOk(m: Keymap)
      ensures NamedChord(m, SELECT_ALL, []).Some? ==> ChordOk(NamedChord(m, SELECT_ALL, []).value)
    {
      hide NamedChord;
      assert ChordOk([]);
    }

    method ClickPlan(p: Point) returns (ok: bool)
      requires Valid() && planned == 0
      modifies this, events
      ensures Valid() && ok && Planned() == ClickInto(p) && planned == 5
    {
      ok := Add(Gate, 0);
      if ok { ok := Add(Move(p), 0); }
      if ok { ok := Add(Gate, 0); }
      if ok { ok := Add(Button(272, true), 0); }
      if ok { ok := Add(Button(272, false), 0); }
    }

    method GatedPlan(c: seq<nat>) returns (ok: bool)
      requires Valid() && ChordOk(c) && planned <= 100
      modifies this, events
      ensures Valid() && ok && planned <= old(planned) + 33 && Planned() == old(Planned()) + GatedChord(c)
    {
      hide ChordEvents;
      GatedChordWithin(c);
      ghost var base := Planned();
      ok := Add(Gate, SETTLE_US);
      if ok {
        ok := ChordPlan(c, SETTLE_US);
        Associate(base, [Event(Gate, SETTLE_US)], ChordEvents(c, SETTLE_US));
        assert |Planned()| == |base| + |GatedChord(c)|;
      }
    }

    method FillPlan(text: string) returns (fill: Option<Fill>)
      requires Valid() && planned <= 100
      modifies this, events
      ensures Valid() && fill == FillOf(screen.keymap, text)
      ensures fill.Some? && fill.value.Typing? ==> Typable(screen.keymap, fill.value.cps)
      ensures fill.Some? ==> Planned() == old(Planned()) + FillEvents(screen.keymap, fill.value)
    {
      hide GatedChord, Spells, TextOf, TextEvents;
      FillPerformable(screen.keymap, text);
      if text == "-" {
        var back := FindKeystroke(screen.keymap, Symbol(BACKSPACE), []);
        if back.None? {
          return None;
        }
        var ok := GatedPlan(back.value);
        fill := if ok then Some(Erasing(back.value)) else None;
      } else {
        var cps := TextPlan(text, true, SETTLE_US);
        fill := if cps.Some? then Some(Typing(cps.value)) else None;
      }
    }

    // plan(): the table of an accepted line holds its meaning's events.
    method Fill(line: string, nowUs: nat, leaseUs: nat) returns (ok: bool, ghost g: Option<Gesture>)
      requires Valid()
      modifies this, events
      ensures Valid() && g == Meaning(screen, line)
      ensures g.Some? ==> Performable(screen.keymap, g.value)
      ensures (ok <==> Accepted(screen, line, nowUs, leaseUs)) && (ok ==> g.Some?)
      ensures ok ==> Planned() == Events(screen.keymap, g.value)
    {
      hide Token, Verb, Events, Finish, Performable;
      MeaningPerformable(screen, line);
      g := Meaning(screen, line);
      ok := false;
      planned := 0;
      var verb := Token(Some(line));
      if verb.Fail? || |verb.value| != 1 {
        return;
      }
      var found, at := VerbPlan(verb.value[0], verb.rest);
      if found.Got? {
        Timely(screen.keymap, found.value);
        ok := found.rest.None? && planned != 0 && (nowUs + at + planned * 2000 + 100000) % TWO64 < leaseUs;
      }
    }

    method VerbPlan(verb: char, from: Rest) returns (g: Parsed<Gesture>, at: nat)
      requires Valid() && planned == 0
      modifies this, events
      ensures Valid() && g == Verb(screen, verb, from)
      ensures g.Got? ==>
        Performable(screen.keymap, g.value) && Planned() == Events(screen.keymap, g.value) && at == Finish(g.value)
    {
      hide Modifiers, GestureOf, Events, Performable;
      var kind, mods, rest := verb, [], from;
      at := 0;
      if kind == 'Y' || kind == 'Z' {
        ModifiersOk(screen.keymap, from);
        var named := ParseModifiers(screen.keymap, from);
        if named.Fail? {
          return Fail, at;
        }
        mods, rest := named.value, named.rest;
        kind := if kind == 'Y' then 'W' else 'L';
      }
      g, at := GesturePlan(kind, mods, rest);
    }

    method GesturePlan(kind: char, mods: seq<nat>, rest: Rest) returns (g: Parsed<Gesture>, at: nat)
      requires Valid() && planned == 0 && ModsOk(mods)
      modifies this, events
      ensures Valid() && g == GestureOf(screen, kind, mods, rest)
      ensures g.Got? ==>
        Performable(screen.keymap, g.value) && Planned() == Events(screen.keymap, g.value) && at == Finish(g.value)
    {
      hide Pointer, WheelOf, ChordOf, TypeOf, ReplaceOf, Events, Performable, PointerVerb, ModsOk;
      at := 0;
      Kinds(screen, kind, mods, rest);
      if PointerVerb(kind) {
        g, at := PointerPlan(kind, mods, rest);
      } else if kind == 'W' {
        g, at := WheelPlan(mods, rest);
      } else if kind == 'K' || kind == 'J' {
        g := KeysPlan(kind, rest);
      } else if kind == 'T' {
        g := TypePlan(rest);
      } else if kind == 'E' {
        g := ReplacePlan(rest);
        at := SETTLE_US;
      } else {
        g := Fail;
      }
    }

    static lemma Kinds(screen: Screen, kind: char, mods: seq<nat>, rest: Rest)
      ensures ChordOf(screen.keymap, kind, rest).Got? ==> ChordOf(screen.keymap, kind, rest).value.Chord?
      ensures TypeOf(screen.keymap, rest).Got? ==> TypeOf(screen.keymap, rest).value.Type?
      ensures ReplaceOf(screen, rest).Got? ==> ReplaceOf(screen, rest).value.Replace?
    {
      hide Token, Integer, Codes, NamedChord, TextOf, FillOf, PointAt;
    }
  }
}
